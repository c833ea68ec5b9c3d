# tradehub core, modelled in Dafny

This project models the state-keeping core of the tradehub services and proves properties of it:

- **openinterestservice**: the Redis window of recent open-interest samples and the per-symbol last timestamp (`redis_client.py`). The history table with its `INSERT IGNORE` on a unique `(symbol, timestamp)` index, and its schema provisioning (`db.py`). One collection step per symbol (`app.py`).
- **userdataservise**: the Redis bookkeeping of positions and orders: hashes, open sets, cached counters, reconciliation with an API snapshot, and field filters (`redis_client.py`). The mapping of ACCOUNT_UPDATE and ORDER_TRADE_UPDATE events onto that store, and the receive loop that survives failing messages (`app.py`).
- **The four candle relays** (`marketservise`, `uaserdata`, `marketservise2`, `marketservise1`): the wire-to-record key rename, and the routing of a closed candle to a list (trimmed to five, or unbounded) and of an open candle to a "current" slot. They also cover the per-candle key with its sorted-set index, the unique-symbol report window, the reconnect backoff, the worker queue's `task_done` discipline, and the stop-on-first-error loop.
- **orderflow**: the construction of a new order's request parameters.

The Redis server is a value (`RedisState.Db`: strings, lists, hashes, sets, sorted sets, expiries), with one function per command. `RedisStore.Store` is a class holding that value; its methods apply one command each. Each service's `RedisClient` is a class over a `Store`, and its methods are proved to leave the store as a specification function of the old store says. The lemmas state the properties of those functions.

- **Python values** are `Values.Value`: None, bool, int, Decimal, str, list, dict. Python exceptions are `Values.Exc`, and an operation that can raise returns a `Result`.
- **JSON**: a cell written with `json.dumps(v)` is `Doc(v)`. A message `json.loads` rejects is `None` of an `Option<Value>`.
- **Decimal**: sign, coefficient and exponent, as Python's `decimal` keeps them. Multiplication is exact.
- **Parameters**: the clock, the network replies and the signing function are all passed in.

Where the code and its own comments disagree, the model follows the code:

- Both `save_closed_candle_in_list` methods say in their doc comments that 50 candles are kept. The code trims to 5 (marketservise/redis_client.py:14,20; uaserdata/app.py:20,26).
- Both `save_closed_candle` methods say the lifetime is 3600 s. The code sets 1600 s (marketservise/redis_client.py:36-37; uaserdata/app.py:42-43).
- `UNIQUE_SYMBOLS_LOG_INTERVAL` is 300 although its comment says 60 seconds (marketservise2/app2.py:40).

## Model

| member | source | states |
|---|---|---|
| OpenInterestCache.KeysDistinct | openinterestservice/redis_client.py:18-34 | the last-timestamp key of a symbol is never a list key, and each key determines its symbol |
| OpenInterestCache.RpushAllAppends | openinterestservice/redis_client.py:36-37 | one RPUSH per record appends exactly the records, in order, to the list and touches no other key |
| OpenInterestCache.PushEmptyIsNoop | openinterestservice/redis_client.py:32-33 | pushing an empty batch leaves the store unchanged |
| OpenInterestCache.PushKeepsWindow | openinterestservice/redis_client.py:35-39 | after a push the list is the last `max_length` elements of the old list followed by the new records |
| OpenInterestCache.PushBoundAndNewestLast | openinterestservice/redis_client.py:28-38 | after a push the list holds at most `max_length` records and ends with the newest one |
| OpenInterestCache.PushDropsNothingWhenFits | openinterestservice/redis_client.py:36-38 | when the old and new records fit in `max_length`, the list is the old list followed by all the new records |
| OpenInterestCache.PushTouchesOnlyItsList | openinterestservice/redis_client.py:34 | a push changes no key but `open_interest:{symbol}` |
| OpenInterestCache.PushKeepsLastTimestamps | openinterestservice/redis_client.py:18-34 | a push leaves every symbol's last timestamp as it reads |
| OpenInterestCache.SaveThenGet | openinterestservice/redis_client.py:17-26 | a saved timestamp, sent as its decimal text, reads back as the same integer |
| OpenInterestCache.SaveTouchesOnlyItsSymbol | openinterestservice/redis_client.py:24-26 | saving one symbol's timestamp changes neither another symbol's timestamp nor any symbol's list |
| OpenInterestCache.RedisClient.GetLastTimestamp | openinterestservice/redis_client.py:17-22 | returns None when the key was never set, otherwise the stored text read as an optional sign followed by ASCII digits, which is the integer it spells; any other text raises ValueError (narrower than `int()`, see Left out) |
| OpenInterestCache.RedisClient.SaveLastTimestamp | openinterestservice/redis_client.py:24-26 | the store and the outcome are `SaveLast`: an int or a str is SET under the symbol's key as its text; any other value raises DataError and writes nothing |
| OpenInterestCache.SaveLastKinds | openinterestservice/redis_client.py:24-26 | an int is saved as its decimal text; None, a bool, a Decimal, a list or a dict raises DataError with nothing written |
| OpenInterestCache.SaveTextThenGet | openinterestservice/redis_client.py:17-26 | a saved text reads back as the integer it spells, or makes the next read raise ValueError when it spells none |
| OpenInterestCache.Pushed | openinterestservice/redis_client.py:28-39 | a push changes no key but the symbol's list |
| OpenInterestCache.RedisClient.PushOpenInterestList | openinterestservice/redis_client.py:28-39 | the loop of RPUSHes followed by LTRIM leaves the store as `Pushed` says; nothing is sent for an empty batch |
| OpenInterestDb.ProvisionIdempotent | openinterestservice/db.py:16-73 | running `init_pool` again against the same server changes neither the schema nor the outcome |
| OpenInterestDb.ProvisionFailuresNonFatal | openinterestservice/db.py:32-72 | with the database present, a refused CREATE DATABASE and a refused index statement are only logged: the pool is still created and the table exists |
| OpenInterestDb.Provision | openinterestservice/db.py:16-73 | an unreachable server changes nothing; `init_pool` returns normally exactly when the pool was assigned, the table exists and CREATE TABLE was accepted; the pool is only assigned with the database present; nothing already provisioned is lost |
| OpenInterestDb.TableRefusedKeepsPool | openinterestservice/db.py:38-66 | a refused CREATE TABLE raises after `self.pool` was assigned: the pool stays, the database exists and the table is as before |
| OpenInterestDb.MissingFieldsDefault | openinterestservice/db.py:97-99 | a record without fields is inserted with timestamp 0 and empty texts for both sums |
| OpenInterestDb.SavedExtends | openinterestservice/db.py:88-92 | existing rows are never changed or removed by a batch |
| OpenInterestDb.SavedKeys | openinterestservice/db.py:96-105 | after a batch the table holds a `(symbol, timestamp)` key exactly when it held it before or the batch carried a record whose timestamp the column stores as that number: an int as itself, a bool as 1 or 0, any other value as the server converts it; a row the column refuses is skipped and the rest are attempted |
| OpenInterestDb.Saved | openinterestservice/db.py:96-105 | a batch only appends, at most one row per record, every appended row carrying the batch's symbol |
| OpenInterestDb.SavedKeepsKeysUnique | openinterestservice/db.py:60-92 | with the unique index, at most one row exists per `(symbol, timestamp)` |
| OpenInterestDb.SavedNoNewKeys | openinterestservice/db.py:88-92 | a batch whose keys are all stored already leaves the table unchanged |
| OpenInterestDb.SavedIdempotent | openinterestservice/db.py:82-92 | saving the same batch twice yields the same table as saving it once |
| OpenInterestDb.FirstOccurrenceWins | openinterestservice/db.py:96-101 | of several records in one batch with the same new timestamp, the first one is the row kept |
| OpenInterestDb.SavedAppend | openinterestservice/db.py:96-101 | saving two batches one after the other is saving their concatenation |
| OpenInterestDb.DBManager.InitPool | openinterestservice/db.py:16-73 | the schema and the outcome are those of `Provision` (OperationalError on failure); the pool is set afterwards when it was before or provisioning reached `create_pool`, even when CREATE TABLE then failed; the rows are untouched |
| OpenInterestDb.DBManager.SaveOpenInterest | openinterestservice/db.py:80-105 | an empty batch does nothing; without a pool it raises AttributeError and changes nothing; otherwise the table becomes `Stored` of the batch: with the table, every record is tried in order under INSERT IGNORE with its timestamp converted as the column does; without it, every INSERT fails and the table is unchanged |
| OpenInterestApp.ParseSymbolFromStreamIsUpperBase | openinterestservice/app.py:28-30 | the symbol of a stream name is the upper-cased text before its first '@' |
| OpenInterestApp.StartTime | openinterestservice/app.py:38-51 | `startTime` is present exactly when a non-zero last timestamp is stored, and is that timestamp plus one |
| OpenInterestApp.FetchOpenInterest | openinterestservice/app.py:32-47 | a network failure or an error status gives the empty list; otherwise the decoded body |
| OpenInterestApp.NewerThan | openinterestservice/app.py:57-58 | succeeds exactly when every timestamp (0 when missing) is a number Python compares with an int (an int, a bool or a Decimal); otherwise raises TypeError |
| OpenInterestApp.NewerThanMembers | openinterestservice/app.py:58 | a record is kept exactly when it is in the data and its timestamp is strictly greater than the last timestamp |
| OpenInterestApp.NewerThanOne | openinterestservice/app.py:58 | one record: TypeError when its timestamp is no number, itself when newer, nothing otherwise |
| OpenInterestApp.NewerThanAppend | openinterestservice/app.py:58 | the filter of a concatenation is the concatenation of the filters: order and repetitions are kept |
| OpenInterestApp.MaxTimestamp | openinterestservice/app.py:75 | of one record, its timestamp whatever it is, as Python's `max` of one element |
| OpenInterestApp.MaxTimestampIsOne | openinterestservice/app.py:75 | a maximum found is the timestamp of one of the records |
| OpenInterestApp.MaxTimestampNumeric | openinterestservice/app.py:75 | over numeric timestamps the maximum exists and no record's timestamp exceeds it |
| OpenInterestApp.MaxTimestampText | openinterestservice/app.py:75 | over text timestamps the maximum exists, is a text, and none is greater in code-point order |
| OpenInterestApp.MaxTimestampKinds | openinterestservice/app.py:75 | of two records or more, `max` succeeds exactly when the timestamps are all numbers or all texts |
| OpenInterestApp.LastTimestampAdvances | openinterestservice/app.py:57-76 | when new records were found, the new last timestamp is strictly greater than the previous one |
| OpenInterestApp.ProcessSymbolOi | openinterestservice/app.py:49-77 | the query carries `startTime` by the stored last timestamp; a failed read raises with nothing written; no data, no new records, a filter that raises TypeError, or a missing pool (AttributeError) leave the cache and the table unchanged; otherwise saves the new records to the table, pushes them with a window of 10, and sets the last timestamp to their maximum, or raises after the push when `max` or the SET fails |
| UserDataPositions.SetPosition | userdataservise/redis_client.py:29-65 | `set_position` as a function of the store: raising, writing the side's field, then adding to or removing from the open set of the side |
| UserDataPositions.MarkOpenFrame | userdataservise/redis_client.py:50-62 | the open-set update touches no hash and no set but the two open sets |
| UserDataPositions.SetPositionFailureKeepsSets | userdataservise/redis_client.py:37-42 | a `set_position` that raises leaves both open sets as they were |
| UserDataPositions.SetPositionOfText | userdataservise/redis_client.py:29-62 | for a text or integer symbol, `set_position` is `SetPosition` of the symbol's text |
| UserDataPositions.SetPositionOfOtherScalar | userdataservise/redis_client.py:36-62 | a None, bool or Decimal symbol writes the side under `positions:` and its `str()`, then raises DataError exactly when the upper-cased side is LONG or SHORT; the open sets are unchanged |
| UserDataPositions.SetPositionOfFailureKeepsSets | userdataservise/redis_client.py:36-62 | whatever the symbol, a `set_position` that raises leaves both open sets as they were |
| UserDataPositions.MissingSideRaises | userdataservise/redis_client.py:37-39 | a missing or empty `positionSide` raises ValueError and stores nothing |
| UserDataPositions.SetPositionHashes | userdataservise/redis_client.py:36-42 | apart from the HSET of its side's field, `set_position` changes only the two open sets |
| UserDataPositions.SetPositionWritesOnlyItsSide | userdataservise/redis_client.py:36-42 | the side's field reads back as the data given; every other field and every other symbol's hash is unchanged |
| UserDataPositions.SetPositionOpenSide | userdataservise/redis_client.py:42-62 | after `set_position`, a (symbol, side) has an open stored position exactly as before, except the written one, which is open iff its amount is non-zero |
| UserDataPositions.MarkOpenSets | userdataservise/redis_client.py:50-62 | with an upper-case side, the symbol is added to (open) or removed from (closed) the set of that side only |
| UserDataPositions.SetPositionOpenSets | userdataservise/redis_client.py:44-62 | a non-zero amount adds the symbol to the open set of its side, a zero or unparseable one removes it, and a side other than LONG or SHORT touches neither set |
| UserDataPositions.SetPositionKeepsConsistent | userdataservise/redis_client.py:44-62 | with upper-case sides, the open sets keep holding exactly the symbols whose stored position of that side is open |
| UserDataPositions.AllPositionsListsStored | userdataservise/redis_client.py:85-99 | `get_all_positions` lists a symbol exactly when its position hash is non-empty, with what `get_position` returns for it |
| UserDataPositions.PositionsOverAdd | userdataservise/redis_client.py:93-98 | taking one more key into account adds its symbol when it is a non-empty position hash |
| UserDataPositions.OpenListingStep | userdataservise/redis_client.py:112-119 | adding the open sides of one more symbol extends a listing of open positions, each (symbol, side) once |
| UserDataPositions.SideListingStep | userdataservise/redis_client.py:129-139 | taking one more symbol of an open set adds its position when it is stored, decodable and open |
| UserDataPositions.ConsistentSetsAreOpen | userdataservise/redis_client.py:127-140 | in a consistent store every member of an open set has its open position of that side |
| UserDataCache.RedisClient.SetPosition | userdataservise/redis_client.py:29-65 | the store and the outcome are `UserDataPositions.SetPositionOf` of the symbol value: a falsy side raises ValueError with nothing written; otherwise the side's field is written under `positions:{symbol}` before the open sets are updated, and a symbol redis-py cannot send raises DataError after that write; on success both counters equal the sizes of the open sets; on a raise they are unchanged |
| UserDataCache.RedisClient.GetPosition | userdataservise/redis_client.py:67-83 | every stored side of the symbol, decoded, an undecodable one as None; empty when nothing is stored |
| UserDataCache.RedisClient.GetAllPositions | userdataservise/redis_client.py:85-99 | the decoded positions of every symbol with a non-empty position hash; raises when a stored side does not decode |
| UserDataCache.RedisClient.GetAllOpenPositions | userdataservise/redis_client.py:101-120 | over the symbols in either open set, every stored side whose amount is non-zero, each (symbol, side) exactly once |
| UserDataCache.RedisClient.GetAllOpenLongPositions | userdataservise/redis_client.py:122-140 | the open LONG positions of the symbols in `open_long_positions`, each once; as many as the set has members when the sets are consistent |
| UserDataCache.RedisClient.GetAllOpenShortPositions | userdataservise/redis_client.py:142-159 | the open SHORT positions of the symbols in `open_short_positions`, each once; as many as the set has members when the sets are consistent |
| UserDataCache.RedisClient.GetOpenLongCount | userdataservise/redis_client.py:161-165 | the cached count, which is the size of `open_long_positions` while the counters are current |
| UserDataCache.RedisClient.GetOpenShortCount | userdataservise/redis_client.py:167-171 | the cached count, which is the size of `open_short_positions` while the counters are current |
| UserDataCache.RedisClient.GetAllOpenCount | userdataservise/redis_client.py:173-178 | the sum of both cached counts, which is the sum of the two set sizes while the counters are current |
| UserDataCache.RedisClient.SetOrder | userdataservise/redis_client.py:181-213 | the store and the outcome are `UserDataOrders.SetOrder` of the old store |
| UserDataCache.RedisClient.UpdateOrder | userdataservise/redis_client.py:243-248 | the same store change and outcome as `set_order`, so the same ValueError and DataError cases |
| UserDataCache.RedisClient.GetOpenOrders | userdataservise/redis_client.py:215-227 | the non-empty order hashes of the ids in `open_orders`, in the order the set is walked |
| UserDataCache.RedisClient.GetOpenOrdersBySymbol | userdataservise/redis_client.py:229-241 | the non-empty order hashes of the ids in `symbol_orders:{symbol}`, in the order the set is walked |
| UserDataCache.RedisClient.SetApiOrders | userdataservise/redis_client.py:261-266 | `set_order` for each API order with a truthy id, in order; on success the set of their ids as text |
| UserDataCache.RedisClient.RemoveStaleOrders | userdataservise/redis_client.py:268-281 | each stored open id not reported by the API whose hash exists is dropped with its hash and its index entries |
| UserDataCache.RedisClient.SyncOpenOrders | userdataservise/redis_client.py:250-281 | both phases of `sync_open_orders`: the store afterwards is `UserDataOrders.Sync` of the old store |
| UserDataCache.RedisClient.GetFilteredOrders | userdataservise/redis_client.py:283-312 | the open orders (of the symbol when one is given) that match every filter, in their listed order |
| UserDataCache.PrefixFails | userdataservise/redis_client.py:262-266 | an API order that raises in `set_order` ends the first phase with that failure |
| UserDataCache.PositionsUndecodable | userdataservise/redis_client.py:96-98 | a position hash with a side `json.loads` rejects makes the listing raise |
| UserDataOrders.OrderKeyInjective | userdataservise/redis_client.py:193 | different order ids have different hash keys |
| UserDataOrders.KeysDistinct | userdataservise/redis_client.py:193-208 | an order's hash key is never `open_orders` nor a symbol's order set |
| UserDataOrders.SetOrder | userdataservise/redis_client.py:181-213 | raises ValueError exactly when `orderId` is missing or falsy; any other raise is DataError; with a falsy id or a field redis-py cannot send, nothing is written |
| UserDataOrders.SetOrderRaises | userdataservise/redis_client.py:193-206 | a truthy bool or Decimal id writes the hash under `orders:` and its `str()`, then raises DataError at the SADD/SREM of the id |
| UserDataOrders.SetOrderKeepsOtherSets | userdataservise/redis_client.py:199-213 | `set_order` touches no set outside `open_orders` and the symbol sets |
| UserDataOrders.IndexOrderKeepsOtherSets | userdataservise/redis_client.py:205-213 | the index updates touch `open_orders` and the symbol sets only |
| UserDataOrders.MissingIdRaises | userdataservise/redis_client.py:188-190 | a missing or falsy `orderId` raises ValueError and writes nothing |
| UserDataOrders.UnencodableFieldRaises | userdataservise/redis_client.py:196-199 | with a truthy id, a field value redis-py cannot send (None, a list, a dict) makes `set_order` raise DataError at the HSET, before any write; this covers a list or dict `orderId` or `symbol` |
| UserDataOrders.IndexOrderEffect | userdataservise/redis_client.py:205-213 | the index updates leave the hashes alone and put the id in or out of `open_orders` and, given a symbol, the symbol's set |
| UserDataOrders.SetOrderIndexes | userdataservise/redis_client.py:204-213 | status NEW or PARTIALLY_FILLED puts the id in `open_orders` and, with a non-empty symbol, in `symbol_orders:{symbol}`; any other status removes it from both |
| UserDataOrders.OpenStatusWritten | userdataservise/redis_client.py:196-202 | the status stored for an open order reads as NEW or PARTIALLY_FILLED |
| UserDataOrders.SetOrderKeepsIndexed | userdataservise/redis_client.py:181-213 | with text or integer ids, `set_order` keeps every indexed open id backed by an order hash recording an open status |
| UserDataOrders.SetOrdersKeepsIndexed | userdataservise/redis_client.py:261-266 | the first phase of `sync_open_orders` keeps that invariant |
| UserDataOrders.SetOrders | userdataservise/redis_client.py:261-266 | the first phase raises only DataError (a falsy id is skipped, never passed on); on success it collects at most one id text per order |
| UserDataOrders.DropOrderEffect | userdataservise/redis_client.py:277-281 | dropping an order removes its hash, its `open_orders` entry and, with a non-empty symbol, its entry in `symbol_orders:{symbol}`; no other order's hash and no other symbol's set changes |
| UserDataOrders.RemoveStaleEffect | userdataservise/redis_client.py:272-281 | one step of the second phase only shrinks the open index and the symbol sets; a stale id with a hash loses its hash, its `open_orders` entry and its entry in the set of its stored symbol; other ids keep their hashes and entries |
| UserDataOrders.RemoveStaleKeepsApiIds | userdataservise/redis_client.py:272-281 | one step only shrinks the open index and keeps the hash of every id the API reported |
| UserDataOrders.RemoveAllStale | userdataservise/redis_client.py:268-281 | the second phase only shrinks the open index and keeps the hash of every id the API reported |
| UserDataOrders.RemoveAllStaleKeepsHash | userdataservise/redis_client.py:272-281 | an id not among those visited keeps its hash |
| UserDataOrders.RemoveAllStaleEffect | userdataservise/redis_client.py:268-281 | after the second phase, no id unknown to the API that had a hash is still indexed as open, nor in the set of its stored symbol; the open index and every symbol set only lost ids |
| UserDataOrders.RemoveAllStaleKeepsIndexed | userdataservise/redis_client.py:268-281 | dropping stale ids keeps every remaining indexed id backed by its open order hash |
| UserDataOrders.ReconciledIndexOnlyHoldsApiIds | userdataservise/redis_client.py:268-281 | when every indexed id has its hash, the second phase leaves indexed as open only ids the API reported, each still backed by its hash |
| UserDataOrders.SyncLeavesOnlyApiIds | userdataservise/redis_client.py:250-281 | a successful sync from an indexed store leaves indexed as open only ids the API reported, still backed by their open order hashes |
| UserDataOrders.OrdersOfMembers | userdataservise/redis_client.py:220-227 | every listed order is the stored hash of one of the ids |
| UserDataOrders.OrdersOfAllStored | userdataservise/redis_client.py:220-227 | when every id has a hash, none is skipped and the i-th order is the hash of the i-th id |
| UserDataOrders.OpenOrdersAreOpen | userdataservise/redis_client.py:215-227 | on an indexed store `get_open_orders` lists one order per open id, each recording a NEW or PARTIALLY_FILLED status |
| UserDataOrders.FilterBySelect | userdataservise/redis_client.py:310-311 | one more filter pass on the selected orders selects by one more filter |
| UserDataOrders.Select | userdataservise/redis_client.py:309-312 | an order is selected exactly when it is among the orders and matches every filter on the text of its field |
| UserDataOrders.FilterAllIsSelect | userdataservise/redis_client.py:309-312 | applying the filter passes one after another keeps exactly the orders matching all filters, in order |
| UserDataOrders.FilterOrderIrrelevant | userdataservise/redis_client.py:309-312 | the result does not depend on the order or repetition of the filters |
| UserDataOrders.SelectSameFilters | userdataservise/redis_client.py:309-312 | two filter lists with the same members select the same orders |
| UserDataApp.CumQuoteExact | userdataservise/app.py:108 | `cumQuote` is exactly price × quantity when the price is above zero, average price × quantity otherwise |
| UserDataApp.CumQuoteRule | userdataservise/app.py:105-118 | the record's `cumQuote` follows that rule on the decimals read from the order |
| UserDataApp.LoggedSizeIsProduct | userdataservise/app.py:91-94 | when entry price and amount both convert, the logged size is their exact product |
| UserDataApp.PositionRecordFields | userdataservise/app.py:80-87 | an ACCOUNT_UPDATE row becomes the record symbol=s, positionAmt=pa, entryPrice=ep, unrealizedProfit=up, updateTime=T of the event, positionSide=ps |
| UserDataApp.ApplyRowIsSetPosition | userdataservise/app.py:80-88 | a well-formed row is `set_position` of its symbol and its record |
| UserDataApp.ApplyRowStores | userdataservise/app.py:79-88 | a well-formed row's record is stored under its symbol and side, and no other stored side moves |
| UserDataApp.LastRowWins | userdataservise/app.py:78-88 | after an ACCOUNT_UPDATE of well-formed rows, every row's record is stored under its symbol and side unless a later row of the same symbol and side replaced it |
| UserDataApp.OrderFieldsValues | userdataservise/app.py:110-118 | the price, average price, quantity and `cumQuote` fields of the order record |
| UserDataApp.MissingAmountsAreZero | userdataservise/app.py:105-107 | missing p, ap and q read as zero, and so does `cumQuote` |
| UserDataApp.OrderIdentityDefaults | userdataservise/app.py:111-114 | order id, symbol, status and client order id default to "" |
| UserDataApp.OrderKindDefaults | userdataservise/app.py:119-121 | type, side and position side default to "" |
| UserDataApp.OrderTriggerDefaults | userdataservise/app.py:122-123 | the stop price defaults to "0.0" and the working type to "" |
| UserDataApp.OrderEventFields | userdataservise/app.py:124-126 | update time, good-till date and time in force come from the event itself, not from `o` |
| UserDataApp.OrderFieldsKeys | userdataservise/app.py:110-127 | the order record always has the same sixteen fields |
| UserDataApp.OrderWithoutIdRaises | userdataservise/app.py:111-129 | an order event without an id raises at `set_order` and changes nothing |
| UserDataApp.OtherEventsNoop | userdataservise/app.py:73-103 | any other event type changes nothing |
| UserDataApp.EventSpec | userdataservise/app.py:68-130 | a `res` that is not a dict raises AttributeError and changes nothing; any event but ACCOUNT_UPDATE leaves both open position sets alone |
| UserDataApp.OrderUpdateKeepsPositionSets | userdataservise/app.py:103-129 | an ORDER_TRADE_UPDATE leaves both open position sets as they were |
| UserDataApp.ReceiveAllAppend | userdataservise/app.py:137-152 | receiving two runs of messages is receiving the first, then the second |
| UserDataApp.FailureIsolated | userdataservise/app.py:137-152 | a message that raises keeps what it wrote before raising, and the following messages are processed as usual |
| UserDataApp.UndecodableSkipped | userdataservise/app.py:138-152 | an undecodable message changes nothing |
| UserDataApp.RowsStop | userdataservise/app.py:79-88 | a row that raises ends the ACCOUNT_UPDATE with that failure |
| UserDataApp.ProcessRow | userdataservise/app.py:80-88 | one row: the store and the outcome are `ApplyRow` of the row (its record, then `set_position` of its own `s`); counters stay current when they were |
| UserDataApp.ProcessRows | userdataservise/app.py:79-88 | the loop over the rows leaves the store and the outcome as `ApplyRows` says: the rows in order, each through `set_position` of its own `s`, stopping at the first that raises; counters stay current when they were |
| UserDataApp.ProcessAccountUpdate | userdataservise/app.py:74-101 | the store and the outcome are `AccountUpdate`: `res["a"]["P"]`, then each row in order; counters stay current when they were |
| UserDataApp.ProcessOrderUpdate | userdataservise/app.py:103-129 | the store and the outcome are `OrderUpdate`: the order record built from `res["o"]`, then `update_order`; both open position sets are unchanged |
| UserDataApp.ProcessUserDataEvent | userdataservise/app.py:68-130 | the store afterwards and the outcome are `EventSpec` of the event; counters stay current when they were |
| UserDataApp.ReceiveUserDataMessages | userdataservise/app.py:136-152 | every message is processed in turn; the store afterwards is `ReceiveAll` of the messages |
| Candles.RecordKeysDistinct | marketservise/app.py:18-36 | the sixteen record keys are distinct, so no wire field overwrites another |
| Candles.Rename | marketservise/app.py:18-36 | the record always has the symbol, interval, close time and closed-flag keys the relays read |
| Candles.RenameTable | marketservise/app.py:18-36 | each record key holds the value of its wire key (t,T,s,i,f,L,o,c,h,l,v,n,x,q,V,Q in order), None when the kline lacks it |
| Candles.RenameKeys | marketservise/app.py:19-35 | the record has exactly the sixteen record keys, whatever the kline holds |
| Candles.RenameLossless | marketservise/app.py:18-36 | two klines carrying exactly the wire keys rename to the same record only when they are equal |
| Candles.DecodeCandle | marketservise/app.py:41-43 | an undecodable message raises; a message with `data.k` an object gives the renamed kline, and only such a message succeeds |
| Candles.IsClosedIsX | marketservise/app.py:32-45 | a renamed candle is closed exactly when the kline's `x` is truthy |
| Candles.Field | marketservise/redis_client.py:16 | a missing field raises KeyError; a scalar field is formatted as Python formats it |
| Candles.SeriesKeyParts | marketservise/redis_client.py:16-47 | a series key is the prefix, the symbol, ':' and the interval |
| Candles.SeriesKeySameSeries | marketservise/redis_client.py:16-47 | candles of the same symbol and interval share their series key |
| Candles.CandleKey | marketservise/redis_client.py:31 | a candle key exists only where the series key does |
| Candles.Score | marketservise/redis_client.py:43 | `float(close_time)`: an integer close time is its own score; None, a list or a dict raises TypeError |
| Candles.AppendUnbounded | marketservise1/app1.py:18-20 | an unbounded append adds exactly the candle at the end of its list and changes no other key; a failure writes nothing |
| Candles.AppendClosed | marketservise/redis_client.py:16-21 | succeeds exactly when the series key can be formatted; a failure writes nothing and carries the key's error; a success changes no key but the series list |
| Candles.AppendKeepsLast | marketservise/redis_client.py:16-21 | a bounded append leaves the last `n` of the old list followed by the candle, and changes no other key |
| Candles.PushTrim | marketservise/redis_client.py:19-20 | RPUSH then LTRIM -n -1 keeps the last n of the list with the new element |
| Candles.AppendBoundNewestLast | marketservise/redis_client.py:19-20 | after a bounded append the list holds between 1 and `n` candles and ends with the new one |
| Candles.CurrentHoldsLatest | marketservise/redis_client.py:46-48 | the current slot holds the candle and nothing else changes |
| Candles.CurrentLatestWins | marketservise/redis_client.py:46-48 | of two writes to the same current slot, the later one wins and the first leaves no trace |
| Candles.SetCurrent | marketservise/redis_client.py:46-48 | succeeds exactly when the series key can be formatted; a failure writes nothing; a success leaves the candle's document in the slot |
| Candles.IndexClosedStores | marketservise/redis_client.py:31-44 | the candle is stored under `candle:{symbol}:{interval}:{close_time}` with a 1600 s lifetime and indexed by its close time in `candles_index:{symbol}:{interval}`; no other key changes |
| Candles.IndexClosedIdempotent | marketservise/redis_client.py:42-44 | saving the same closed candle again changes nothing: the index holds one member per candle key |
| Candles.IndexClosed | marketservise/redis_client.py:31-44 | a candle key that cannot be formatted raises with nothing written; otherwise the candle's document is stored under it, and the call succeeds exactly when the close time gives a score, raising that error otherwise |
| Candles.StreamUrlLists | marketservise/app.py:60-61 | the URL is the base followed by the stream names, which splitting at '/' gives back |
| MarketCache.RedisClient.SaveClosedCandleInList | marketservise/redis_client.py:10-21 | the store afterwards is the bounded append to `candles:` keeping 5 |
| MarketCache.RedisClient.SaveClosedCandle | marketservise/redis_client.py:23-44 | the store afterwards is SET, EXPIRE 1600 and ZADD of the closed candle |
| MarketCache.RedisClient.SaveCurrentCandle | marketservise/redis_client.py:46-48 | the store afterwards has the candle in `candle_current:{symbol}:{interval}` |
| MarketApp.ProcessMessage | marketservise/app.py:38-50 | the store afterwards and the outcome are `Processed` of the message |
| MarketApp.Processed | marketservise/app.py:38-50 | a message succeeds exactly when it decodes to a kline whose series key can be formatted; a message that raises stores nothing |
| MarketApp.MalformedStoresNothing | marketservise/app.py:40-50 | a message without a kline object stores nothing |
| MarketApp.ClosedCandleToList | marketservise/app.py:45-46 | a closed candle ends up last in its series list, which keeps at most five, and nothing else changes |
| MarketApp.OpenCandleToCurrent | marketservise/app.py:47-48 | an open candle replaces the `candle_current:` slot of its series, and nothing else changes |
| UaserdataApp.RedisClient.SaveClosedCandleInList | uaserdata/app.py:16-27 | the store afterwards is the bounded append to `candles:` keeping 5 |
| UaserdataApp.RedisClient.SaveClosedCandle | uaserdata/app.py:29-50 | the store afterwards is SET, EXPIRE 1600 and ZADD of the closed candle |
| UaserdataApp.RedisClient.SaveCurrentCandle | uaserdata/app.py:52-54 | the store afterwards has the candle in `current:{symbol}:{interval}` |
| UaserdataApp.ProcessMessage | uaserdata/app.py:77-89 | the store afterwards and the outcome are `Processed` of the message |
| UaserdataApp.Processed | uaserdata/app.py:77-89 | a message succeeds exactly when it decodes to a kline whose series key can be formatted; a message that raises stores nothing |
| UaserdataApp.Routing | uaserdata/app.py:80-89 | a malformed message stores nothing; a closed candle goes to its list (last five kept); an open one to its `current:` slot |
| UaserdataApp.CurrentSlotIsItsOwnKey | uaserdata/app.py:22-53 | a `current:` slot is never a series list, an index or a candle key |
| MarketApp2.RedisClient.CheckConnection | marketservise2/app2.py:60-70 | true exactly when PING answered True; an exception gives false |
| MarketApp2.RedisClient.SaveClosedCandle | marketservise2/app2.py:72-74 | the store afterwards is the unbounded append to `candles:` |
| MarketApp2.RedisClient.SaveCurrentCandle | marketservise2/app2.py:76-78 | the store afterwards has the candle in `current:{symbol}:{interval}` |
| MarketApp2.TallyWindow | marketservise2/app2.py:116-122 | after one message the report time is within 300 s of now and never moves back; when 300 s had passed the set is cleared and the report time becomes now, otherwise the set is the old set with the symbol added and the report time is unchanged |
| MarketApp2.Tally | marketservise2/app2.py:116-122 | the report time afterwards is within 300 s of now; the set is either empty (just reported) or holds the symbol and otherwise only old symbols |
| MarketApp2.TallyAll | marketservise2/app2.py:116-122 | over several messages the report time is the starting one or the clock of one of the messages |
| MarketApp2.TallyAllWindow | marketservise2/app2.py:116-122 | over messages whose clock does not go back, the report time only moves forward, ends within 300 s of the last message, and the set holds only symbols seen |
| MarketApp2.ProcessMessage | marketservise2/app2.py:108-131 | the store and the report state afterwards are `Processed` and `Reported` of the message: the symbol is counted, then a closed candle is appended unbounded and an open one set as current |
| MarketApp2.Processed | marketservise2/app2.py:108-131 | the store part: a message succeeds exactly when it decodes to a kline whose series key can be formatted; a message that raises stores nothing |
| MarketApp2.Routing | marketservise2/app2.py:125-128 | a closed candle is appended to its list with nothing dropped; an open one replaces its `current:` slot |
| MarketApp2.MessageQueue.Put | marketservise2/app2.py:154-161 | the message is queued last and one more task is unfinished |
| MarketApp2.MessageQueue.Get | marketservise2/app2.py:141 | the first message is taken and the unfinished count does not change |
| MarketApp2.MessageQueue.TaskDone | marketservise2/app2.py:148 | one fewer task is unfinished; more calls than tasks raise ValueError |
| MarketApp2.WorkerStep | marketservise2/app2.py:137-148 | a worker takes the first message, the store becomes `Processed` of it and the report state `Reported` of it, and the task is marked done whether or not processing raised |
| MarketApp2.Drain | marketservise2/app2.py:137-148 | workers taking every queued message leave the queue empty, the unfinished count reduced by the number taken, the store `ProcessedAll` and the report state `ReportedAll` of the messages in queue order |
| MarketApp2.ProcessedAllAppend | marketservise2/app2.py:137-148 | processing two runs of messages is processing the first, then the second |
| MarketApp2.ReportedAllIsTally | marketservise2/app2.py:108-122 | the report state after the messages is the tally of the hashable symbols of the messages that decode, each read at the worker's clock |
| MarketApp2.DelayBounds | marketservise2/app2.py:200-204 | there is no delay exactly at attempt 0; otherwise it lies in [2, 30] and does not shrink as attempts grow |
| MarketApp2.DelayCapped | marketservise2/app2.py:203 | from five failed attempts on the delay is 30 s |
| MarketApp2.DelayBefore | marketservise2/app2.py:200-204 | no delay exactly at attempt 0; otherwise between 2 and 30 s |
| MarketApp2.NextAttempt | marketservise2/app2.py:208-217 | the counter after a pass is at most one more than before, and 0 exactly when the pass connected |
| MarketApp2.FailuresCount | marketservise2/app2.py:210-217 | after a clean session, k failed connections in a row leave the counter at k |
| MarketApp2.Reconnects | marketservise2/app2.py:195-217 | the delay before each pass is `min(2^attempt, 30)` (none when the counter is 0) of the counter the earlier passes left; connecting resets it to 0 and an exception adds 1 |
| MarketApp1.RedisClient.SaveClosedCandle | marketservise1/app1.py:18-20 | the store afterwards is the unbounded append to `candles1:` |
| MarketApp1.RedisClient.SaveCurrentCandle | marketservise1/app1.py:23-25 | the store afterwards has the candle in `current1:{symbol}:{interval}` |
| MarketApp1.ProcessMessage | marketservise1/app1.py:63-78 | the store afterwards and the outcome are `Processed` of the message, with the kline renamed with `open_time` |
| MarketApp1.Processed | marketservise1/app1.py:62-78 | a message succeeds exactly when it decodes to a kline whose series key can be formatted; a message that raises stores nothing |
| MarketApp1.Run | marketservise1/app1.py:61-83 | the loop takes at most all messages, all of them unless one raised |
| MarketApp1.RunStopsAtFirstFailure | marketservise1/app1.py:80-83 | the message that ended the loop is the one that raised, and every message before it went through |
| MarketApp1.LaterMessagesIgnored | marketservise1/app1.py:80-83 | once a message has raised, whatever would have arrived afterwards is never stored: there is no reconnect |
| MarketApp1.RunSplits | marketservise1/app1.py:61-78 | a run with no failure is the runs of its parts one after the other |
| MarketApp1.ReceiveLoop | marketservise1/app1.py:61-83 | the receive loop leaves the store, the count of messages taken and whether one raised as `Run` says |
| OrderFlow.Lookup | orderflow/app.py:49-72 | a key is absent exactly when no parameter carries it |
| OrderFlow.Insert | orderflow/app.py:64-72 | inserting a new key keeps keys distinct and maps the key to its value |
| OrderFlow.InsertKeeps | orderflow/app.py:64-72 | inserting a key leaves what every other key holds |
| OrderFlow.NewOrder | orderflow/app.py:29-72 | LIMIT (in any case) without a price raises ValueError and nothing else does; side and type are upper-cased; price and timeInForce appear exactly for LIMIT, timeInForce defaulting to GTC when falsy; stopPrice appears exactly when given; the signature comes last and is computed over all other parameters |

## Left out

- Network I/O is left out: websocket connects and reads, the HTTP requests to the exchange, `get_listen_key`, and `requests.post` in `new_order`. Replies, messages and clocks are parameters instead.
- Concurrency is left out. `asyncio.gather` over symbols, `create_task` per message and the worker pool all run sequentially here. The queue's blocking on a full or empty queue becomes a precondition of `Put` and `Get`.
- Pipelines are sent with `transaction=False`, so push-then-trim is modelled as two commands, with no claim of isolation from concurrent clients.
- HMAC-SHA256 and `urlencode` in `sign` are foreign calls. The signing function is a parameter of `OrderFlow.NewOrder`.
- Floats: `float(positionAmt) != 0` is the predicate `AmountIsNonZero` on integers, decimals and decimal texts. The sorted-set score `float(close_time)` is an integer (see `Candles.Score`). `DecimalEncoder`'s Decimal-to-float conversion is not modelled: a position is stored as its value.
- JSON encoding and decoding are not modelled as text. A stored document is the value it encodes, and an undecodable message is `None`.
- Candles.Field: a list or dict formatted into a key raises `Unsupported` in the model; Python would format its `repr`.
- Candles.Score: scores are integers. A Decimal close time raises `Unsupported`. A text is scored only when it is an optional sign followed by ASCII digits. Every other text raises ValueError, including texts `float()` reads as whole numbers (" 5", "5.0", "1e3", "1_000") and texts it reads as non-integers; Python would score all of them.
- OpenInterestCache.RedisClient.GetLastTimestamp: `int()` is modelled as an optional sign followed by ASCII digits. Python's `int()` also strips surrounding whitespace and accepts `_` between digits and non-ASCII decimal digits; such stored texts raise ValueError here.
- OpenInterestCache.SaveTextThenGet: the same narrower `int()` as `GetLastTimestamp`, so a saved text such as " 7" or "1_000" makes the next read raise ValueError here, where Python would read the integer.
- Values.DecimalOf: `Decimal()` of a list reads it as a (sign, digits, exponent) tuple. The model raises ValueError for every list, as Python does for a malformed one; a well-formed one, which Python turns into a Decimal, is not modelled. This reaches the order record built by `UserDataApp.ProcessOrderUpdate`, which raises ValueError for any list price or quantity.
- UserDataPositions.SetPositionOf: a list or dict symbol raises `Unsupported` with nothing written, because the key would hold the value's `repr`. Python writes the hash under that key, then raises DataError at SADD/SREM, or succeeds for a side other than LONG and SHORT.
- UserDataApp.ProcessRows: a row whose `s` is a list or dict raises `Unsupported` in the model, because the key would hold the value's `repr`. Python writes the hash under that key, then raises DataError at SADD/SREM, or succeeds for a side other than LONG and SHORT. A None, bool or Decimal `s` is modelled as Python formats it.
- UserDataApp.ProcessUserDataEvent: the same list or dict `s` gap as `ProcessRows`, for ACCOUNT_UPDATE rows.
- UserDataCache.RedisClient.SetPosition: the same list or dict symbol gap as `ProcessRows`.
- OpenInterestApp.MaxTimestamp: two list timestamps compared by `max` raise `Unsupported`, where Python compares lists element by element.
- OpenInterestApp.FetchOpenInterest: a 200 reply is a list of records. A JSON body that is not a list is not modelled; Python would return it and `process_symbol_oi` would raise AttributeError at `d.get` or `oi.get`.
- OpenInterestDb.DBManager.SaveOpenInterest: how the server converts a timestamp that is neither an int nor a bool is the parameter `convert`. The sums are stored as given: VARCHAR(50) truncation and the driver's handling of list or dict values are not modelled.
- Decimal arithmetic is exact: the 28-digit context of Python's `decimal` and its rounding are not modelled. `Decimal()` accepts sign, digits and a fraction only, with no exponent, infinity, NaN or surrounding spaces.
- `str.upper` is modelled for ASCII letters only.
- Expiry is recorded as the TTL set on a key. Keys do not actually expire as time passes.
- Logging, `print`, sleeps and timers are left out. The delay before a reconnect is returned rather than slept, and `OFN.update_balance` is a stub that does nothing.
- `list_oi_keys` in openinterestservice/redis_client.py is a debugging listing and is not modelled.
- The open-interest service's start-up loop of ten `init_pool` attempts, `close_pool`, and the five-minute main loop are lifecycle code and are not modelled.
- The subscription functions of userdataservise, uaserdata and marketservise (connect, receive, and reconnect every 5 seconds) are not modelled. Only their per-message processing is.
- frontend/app.py (web UI, basic auth, MySQL queries), restapibinance/app.py (a one-shot HTTP script) and config.py (environment reads) are not part of this model.
- MarketApp2.Reconnects: the sessions are given as a sequence of outcomes. The model does not reach `receive_messages` from within a session.
- MarketApp2.TallyAllWindow: the clock is required not to go back. `time.time()` gives no such guarantee.
- OpenInterestCache.PushKeepsWindow and Candles.AppendKeepsLast require a positive bound, because `LTRIM key -0 -1` keeps the whole list. Every caller in the source passes 10 or 5.
- UserDataPositions.SetPositionKeepsConsistent requires upper-case side names. A lower-case side is stored under its own field name but counted in the set of its upper-cased name, so the sets and the stored fields can disagree.
- UserDataCache.RedisClient.GetAllOpenPositions, UserDataCache.RedisClient.GetAllOpenLongPositions and UserDataCache.RedisClient.GetAllOpenShortPositions: the listing order follows one walk over the Redis set, chosen by the model. Redis's own iteration order is not modelled.
