# pump-scraper, modelled in Dafny

A model of pump-scraper, an actor that lists tokens from the pump.fun
frontend API. It merges pool pricing into the tokens that have graduated to
a Raydium pool, and it keeps the tokens a user-supplied predicate accepts.
The model covers the logic around the network calls:

- the condition engine (`Condition`): operators, constant, leaf and AND/OR
  group predicates, evaluated against a record or rendered as a
  parameterised SQL fragment;
- the entry point (`Entry`): the renaming of input arguments into query
  parameters, the compilation of the input into a left-nested AND chain of
  conditions, and the final filter over the scraped records;
- the scraper's merge loop (`PumpScraper`): one record per coin, with a
  pool lookup only for complete coins that have a pool;
- the paginated listing (`PumpApi`): pages of at most 50 coins, date and
  graduation filters per page, a stop on an empty page, plus the
  empty-term guards of the search calls;
- the request helpers (`ApiBase`):
  - the query-string serialiser, with percent-encoding as in section 2.1 of RFC 3986;
  - the model converter that skips failing items;
  - result shaping and error wrapping;
- the wrappers and validators (`Scripts`, `ApiUtils`): retry with
  geometric backoff, the exception swallower, the exception-to-`ApiError`
  handler, `str_to_bool`, `is_primitive` and `format_response`.

A conversion `build` stands for `ModelConverter.convert`, that is
`base_type(**item)`, whose failure is logged and re-raised unchanged.

Python values are a tagged `Value` (`PyValues`), with Python's truthiness,
equality, membership and ordering rules. An ordered comparison between
values Python cannot order is an explicit error result, and so is a missing
field. A raised exception is a `Raised` value (`Errors`) that separates
`Exception` subclasses from bare `BaseException`s, so each
`except Exception` lets the latter through. The network, the pool lookup
and the converters are functions given to the operations.

Where the code differs from the project's own description, the model
follows the code, except for the construction of the scraper's output
records, which cannot succeed as written (see `PumpScraper.GetResults`
under "## Left out"):

- Filter compilation has no boolean coercion for `is_` keys, and no `"both"`
  sentinel. `is_graduated` becomes a plain equality test on `complete`, so
  `"both"` rejects every record (`Entry.GraduatedBothRejects`).
- A `has_` key yields `NOT_NULL` whatever its value, `False` included
  (`Entry.HasFalseStillRequiresField`).
- Every key with a value yields a condition, including the keys that are
  query parameters and `is_mkt_cap_usd` itself. A record without such a
  field makes the whole filter step fail (`Entry.MissingFieldFails`). The
  token model's field is `usd_market_cap` (src/models/instruments/token.py:18),
  not the `market_cap_usd` the filter names.
- `offset`, `limit` and `sort` given with a value are stored under the key
  `None`, so calling `get_results(**params)` raises a `TypeError`
  (`Entry.PagingArgumentBreaksCall`).
- `to_sql` binds the record's field value, not the operand, and sizes the
  placeholder list by the field value (`Condition.ToSqlIgnoresOperands`).
- `get_results` forwards only the pagination and ordering arguments, so
  `get_coins` never takes the search branch from there
  (`PumpScraper.GetResultsNeverSearches`).
- `get_tokens` ignores the requested offset, always starting at 0. It does
  not truncate the last page, so it can return more than `limit` coins
  (`PumpApi.ListingOvershoots`).

## Model

| member | source | states |
|---|---|---|
| `Condition.HasValue` | src/utils/condition.py:26-27 | false exactly for IS NULL and IS NOT NULL |
| `Condition.SqlToken` | src/utils/condition.py:29-35 | EQ renders "=", NEQ renders "<>", every other operator its own enum text |
| `Condition.SqlTokenInjective` | src/utils/condition.py:29-35 | distinct operators render as distinct SQL tokens |
| `Condition.MakeCondition` | src/utils/condition.py:67-75 | building fails exactly when the operand is None and the operator needs one; otherwise it yields the leaf |
| `Condition.AndWith` | src/utils/condition.py:47-48 | on every record, `P & Q` evaluates without error iff both sides do, and then holds iff both hold |
| `Condition.OrWith` | src/utils/condition.py:44-45 | on every record, the OR of P and Q evaluates without error iff both sides do (no short circuit), and then holds iff either holds |
| `Condition.Apply` | src/utils/condition.py:87-107 | EQ and NEQ are Python equality and its negation, NULL and NOT NULL test for None, the ordered operators give the comparison's answer and IN is membership; an operator fails exactly when Python raises a TypeError (an unordered comparison, an unhashable value looked up in a set), with that operator's error; NOT IN negates IN on a collection; both are false on any other operand |
| `Condition.CrossTypeEquality` | src/utils/condition.py:88-91 | between values of different kinds, other than two numbers, EQ is false and NEQ true |
| `Condition.Evaluate` | src/utils/condition.py:83-148 | evaluation fails only on a field the record lacks, on a comparison TypeError, or on an exception a function accessor raises |
| `Condition.GetterLeaf` | src/utils/condition.py:79-85 | a function accessor's exception propagates unchanged; otherwise the operator is applied to the value it returns |
| `Condition.ToSql` | src/utils/condition.py:111-157 | rendering fails only on a function accessor or a field the record lacks; it binds one value per value leaf, each a value of the record |
| `Condition.ConstantSemantics` | src/utils/condition.py:57-65 | a constant evaluates to its flag and renders as 1=1 or 1=0 with no bindings |
| `Condition.AndSemantics` | src/utils/condition.py:136-148 | an AND group succeeds iff both sides do, is their conjunction, and reports the left error first |
| `Condition.OrSemantics` | src/utils/condition.py:136-148 | an OR group succeeds iff both sides do (no short circuit) and is their disjunction |
| `Condition.IdentityLaws` | src/utils/condition.py:139-143 | an AND with true, an OR with false and a group without a right side all evaluate like `P` |
| `Condition.MembershipOperators` | src/utils/condition.py:100-103 | IN and NOT IN on a list or set are each other's negation; both are false for any other operand |
| `Condition.LeafErrors` | src/utils/condition.py:83-107 | a named leaf fails with MissingField exactly when the field is missing, and otherwise with a TypeError exactly when its GT, LT, GTE or LTE comparison is unordered or its IN or NOT IN looks an unhashable value up in a set; equality and null tests never fail |
| `Condition.LeafRendering` | src/utils/condition.py:111-127 | a function accessor is rejected; a value operator binds the record's value with a placeholder per element; a value-free one binds nothing |
| `Condition.PlaceholderCount` | src/utils/condition.py:122-123 | the placeholder list for n elements holds exactly n question marks |
| `Condition.ToSqlShape` | src/utils/condition.py:111-157 | rendering succeeds iff every leaf is named and every value leaf's field exists |
| `Condition.ToSqlIgnoresOperands` | src/utils/condition.py:119-125 | erasing every operand leaves the rendering unchanged |
| `Condition.GroupRendering` | src/utils/condition.py:150-157 | a group renders "(L) CONJ (R)" with left bindings before right ones; a missing right side renders 1=1 or 1=0 |
| `Condition.LeafRenderingExample` | src/utils/condition.py:119-125 | `age > 18` on a record with age 25 renders "age > ?" and binds 25 |
| `Condition.RenderingExample` | src/utils/condition.py:150-157 | `age > 18 & country == "USA"` renders "(age > ?) AND (country = ?)" and binds the record's values |
| `Condition.ExampleUsage` | src/utils/condition.py:160-185 | the module's example group evaluates to True, False and True on its three people |
| `Condition.ExampleAdultInUsa` | src/utils/condition.py:179-183 | the first person satisfies the first conjunction |
| `Condition.ExampleMinorInactive` | src/utils/condition.py:180-184 | the second person satisfies neither conjunction |
| `Condition.ExampleMissingAge` | src/utils/condition.py:163-168 | `lambda u: u.age` raises AttributeError on a record without an age, and the example group fails on its named `age` leaf first |
| `Condition.ExamplePendingUnder30` | src/utils/condition.py:181-185 | the third person satisfies the second conjunction through the function accessor |
| `PyValues.Member` | src/utils/condition.py:100-101 | membership is defined iff the container is a list or the value is hashable, and is then True iff the container holds an element equal to the value |
| `PyValues.PyEqReflexive` | src/utils/condition.py:88-89 | every value equals itself |
| `PyValues.PyEqSymmetric` | src/utils/condition.py:88-91 | `a == b` implies `b == a` |
| `PyValues.PyEqAcrossNumbers` | src/utils/condition.py:88-89 | `{1} == {1.0}` and `{True: 1} == {1: 1.0}` hold: set and dict contents compare through `==` |
| `PyValues.TruthyMeansNonZero` | src/pump_scraper.py:32 | a value is falsy iff it is None, a number equal to zero, or an empty string, list, set or dict |
| `PyValues.CompareConverse` | src/utils/condition.py:92-99 | `a < b` is `b > a` and `a <= b` is `b >= a`, including when they raise |
| `PyValues.CompareDefinedScalars` | src/utils/condition.py:92-99 | an ordered comparison is defined exactly between numbers, strings, dates or sets |
| `Scripts.IsPrimitive` | src/utils/scripts.py:10-14 | not primitive exactly for dates, collections, iterators and objects |
| `Scripts.Retry` | src/utils/scripts.py:98-124 | at most max(tries, 1) calls; one call and no sleep when tries <= 1; the k-th sleep is delay * backoff^k and never negative; every call but the last raised a checked exception; an early stop after a checked exception happens only on a negative delay and raises ValueError; otherwise the result is the last call's, always so for a non-negative delay and backoff |
| `Scripts.NegativeDelayRaises` | src/utils/scripts.py:112-117 | two tries with delay -1 and a failing first call raise ValueError from the sleep after one call |
| `Scripts.ExceptionSwallow` | src/utils/scripts.py:86-95 | a success passes through; an Exception becomes None; a BaseException propagates |
| `Scripts.StrToBool` | src/utils/scripts.py:127-135 | True exactly for True and the yes-words, False exactly for False and the no-words, otherwise an exception |
| `Scripts.StrToBoolCaseInsensitive` | src/utils/scripts.py:130-133 | the answer does not depend on letter case |
| `Scripts.StrToBoolExamples` | src/utils/scripts.py:130-133 | "YES" gives True and "False" gives False |
| `Scripts.StrToBoolRejects` | src/utils/scripts.py:134-135 | "maybe" and a non-string, non-bool value raise |
| `ApiUtils.FormatResponse` | src/utils/api.py:24-48 | a count exactly for lists, iterators and dicts, equal to the size of the data; an iterator is drained into a list |
| `ApiUtils.ExceptionHandler` | src/utils/api.py:8-21 | a success passes through; an Exception becomes an ApiError with code, message and url (or "Unknown"); a BaseException propagates |
| `ApiUtils.HandledStatusCode` | src/utils/api.py:15-19 | the error code of a handled ApiException parses back to its status code |
| `Errors.IntToStringRoundTrip` | src/utils/api.py:19 | `str` of an integer parses back to the integer |
| `ApiBase.Quote` | src/api/api_base.py:72 | the output holds only '%' and safe characters, and an all-safe input is unchanged |
| `ApiBase.DecodeQuote` | src/api/api_base.py:72 | percent-decoding the quoted text gives the UTF-8 bytes of the input |
| `ApiBase.QuoteHasNoSeparator` | src/api/api_base.py:72 | a quoted text contains no '=' and no '&' |
| `ApiBase.Pairs` | src/api/api_base.py:67-72 | one pair per field |
| `ApiBase.PairSplits` | src/api/api_base.py:68-72 | a pair splits on '=' into exactly the quoted key and the quoted value, and holds no '&' |
| `ApiBase.PairDecodes` | src/api/api_base.py:68-72 | the two halves of a pair decode to the key's bytes and the bytes of the comma-joined value |
| `ApiBase.ToQueryString` | src/api/api_base.py:59-75 | the pairs joined by '&'; empty for no fields; splitting on '&' recovers one pair per field, in field order |
| `ApiBase.QueryStringSplits` | src/api/api_base.py:72-75 | splitting the joined string on '&' gives back the pairs |
| `ApiBase.ConvertList` | src/api/api_base.py:23-32 | the loop computes the specification of the item-by-item conversion |
| `ApiBase.ConvertedSkipsFailures` | src/api/api_base.py:25-31 | succeeds iff no item raises a bare BaseException, and then yields the converted items in input order; failing items are skipped |
| `ApiBase.Rethrow` | src/api/api_base.py:134-139 | an ApiException is re-raised unchanged, another Exception becomes ApiException(500, "Unknown server error") |
| `ApiBase.GetList` | src/api/api_base.py:125-139 | list data gives the converted list, other data a one-element list; a failed request, a failed `result[path]` or a failed conversion of non-list data leaves through the `except` clauses (ApiException as is, another Exception as ApiException 500, a BaseException unchanged) |
| `ApiBase.GetSingle` | src/api/api_base.py:141-158 | a non-empty list converts its first element, other truthy data is converted, falsy data gives None; a failed request, `result[path]` or conversion is wrapped as in GetList |
| `ApiBase.BadPathIsServerError` | src/api/api_base.py:129-158 | a response that cannot be indexed by the path, or lacks it, gives ApiException(500, "Unknown server error") |
| `ApiBase.Post` | src/api/api_base.py:160-170 | the converted response, with errors wrapped as in GetList |
| `PumpApi.PageSize` | src/api/pump.py:72 | min(limit, 50): at most both, and equal to one of them; positive for a positive limit |
| `PumpApi.KeepPage` | src/api/pump.py:82-93 | with a graduation flag, exactly the complete coins of the raw page; always a subsequence of the page |
| `PumpApi.KeepPageWithinDates` | src/api/pump.py:82-89 | without a graduation flag, a coin is kept iff it is on the page and within the bounds that are set |
| `PumpApi.KeepPageGraduated` | src/api/pump.py:92-93 | with a graduation flag, a coin is kept iff it is on the page and complete |
| `PumpApi.GraduatedIgnoresDates` | src/api/pump.py:92-93 | with a graduation flag, neither the date bounds nor the flag's value change the kept coins |
| `PumpApi.FilterPage` | src/api/pump.py:81-93 | the in-order reassignments of `filtered` compute the kept coins of the page |
| `PumpApi.GetTokens` | src/api/pump.py:65-101 | page i is requested at offset i * pageSize; every completed round started below the limit on a non-empty page; the result is the kept coins of those pages; the loop ends on the limit, an empty page or an error, whichever comes first |
| `PumpApi.ListingStopsOnLimit` | src/api/pump.py:72-98 | on a server whose pages never run dry, the listing with limit 60 returns 100 coins after two pages |
| `PumpApi.CollectedSatisfiesFilter` | src/api/pump.py:82-98 | every accumulated coin is complete (graduation flag) or within the date bounds (no flag) |
| `PumpApi.CollectedKeepsOrder` | src/api/pump.py:98 | the accumulated coins are a subsequence of the raw pages in page order |
| `PumpApi.ListingOvershoots` | src/api/pump.py:72-98 | with limit 60 and full pages the loop stops after two pages holding 100 coins |
| `PumpApi.SearchToken` | src/api/pump.py:103-110 | an empty term gives the INVALID ApiError; otherwise `_get_single`'s outcome unchanged: its value as the success, or the very error it raises |
| `PumpApi.SearchTokens` | src/api/pump.py:112-119 | an empty term gives the INVALID ApiError; otherwise `_get_list`'s outcome unchanged: its list as the success, or the very error it raises |
| `PumpApi.EmptyTermMakesNoRequest` | src/api/pump.py:105-106 | with an empty term the result does not depend on the request |
| `PumpScraper.CoinArgs` | src/pump_scraper.py:29 | exactly the input keys among offset, limit, sort, order and includeNsfw, with their values |
| `PumpScraper.GetCoins` | src/pump_scraper.py:53-64 | search iff the term is truthy; offset and limit default to 0 and 50; every other argument is forwarded with its value |
| `PumpScraper.GetResultsNeverSearches` | src/pump_scraper.py:29-30 | the coins of get_results always come from the listing, never from search |
| `PumpScraper.PoolFields` | src/models/instruments/pool.py:111-115 | exactly the fields pool_name, price and price_change_24h, holding the pool's name, price and 24h change |
| `PumpScraper.CoinRecord` | src/pump_scraper.py:34 | the dumped coin has exactly the keys symbol, mint, raydium_pool, complete and created_timestamp plus its other fields, holding the coin's symbol, mint, pool id (or None), completion, creation time and its other values |
| `PumpScraper.Merged` | src/pump_scraper.py:41-42 | the coin's fields plus the pool name, price and 24h change |
| `PumpScraper.Output` | src/pump_scraper.py:31-49 | a coin without a lookup gives its own record; a lookup gives the merged record if it finds pricing, else the coin's; a failing lookup fails |
| `PumpScraper.GetResults` | src/pump_scraper.py:25-51 | the loop computes the per-coin outputs; the pools looked up are those of the coins that need it, and a failing lookup ends the loop |
| `PumpScraper.OneRecordPerCoin` | src/pump_scraper.py:31-51 | the loop succeeds iff every coin's output does, and then emits one record per coin in coin order |
| `PumpScraper.LookupIdsAreNeeded` | src/pump_scraper.py:37-39 | lookups happen exactly for the complete coins that have a pool, in coin order |
| `Entry.Destination` | src/main.py:11-26 | keys outside the table are dropped; a value goes under the target name (None for offset, limit, sort); None under the original key |
| `Entry.BuildParams` | src/main.py:9-28 | the loop computes the item-by-item parameter dictionary |
| `Entry.ParamsLookup` | src/main.py:21-26 | a key is present iff some item is stored under it, holding the last such item's value |
| `Entry.ParamsExample` | src/main.py:11-26 | filter is renamed to term, a None order_by keeps its key, min_mkt_cap is dropped |
| `Entry.KeywordArguments` | src/main.py:79 | keyword expansion fails with TypeError iff the key None is present, and otherwise passes the string keys through |
| `Entry.PagingArgumentBreaksCall` | src/main.py:13-24 | an offset, limit or sort with a value makes the call to get_results fail |
| `Entry.FilterField` | src/main.py:33-48 | renamed fields per the table, market_cap_usd iff is_mkt_cap_usd is truthy, otherwise the key itself |
| `Entry.FilterOperator` | src/main.py:51-58 | GTE iff prefix min_, LTE iff max_, NOT_NULL iff has_, EQ otherwise |
| `Entry.BuildFilters` | src/main.py:31-62 | the loop computes `Const(true) & c1 & ... & cn` over the items with a value |
| `Entry.FilterLeavesGiven` | src/main.py:41-60 | one condition per item with a value, in input order |
| `Entry.ChainEvaluates` | src/main.py:40-60 | the chain is true with no conditions, succeeds iff every condition does, is their conjunction, and reports the first failing condition's error |
| `Entry.ChainHolds` | src/main.py:60 | the chain accepts a record iff every condition accepts it |
| `Entry.NoInputAcceptsAll` | src/main.py:40 | with no input every record is accepted |
| `Entry.MissingFieldFails` | src/main.py:45-60 | a record lacking the field of any given item makes the evaluation fail |
| `Entry.GraduatedBothRejects` | src/main.py:34 | is_graduated = "both" rejects every record whose complete is a boolean |
| `Entry.HasFalseStillRequiresField` | src/main.py:55-56 | has_king_of_the_hill = False still rejects a record without the timestamp |
| `Entry.FilterRecords` | src/main.py:80 | succeeds iff every record evaluates, yields the accepted records in order, and otherwise fails with the first failure |
| `Entry.SelectedRecords` | src/main.py:79-80 | the selected records keep their order and are exactly the fetched ones meeting every given condition |

## Left out

- HTTP, headers and cookies: `_get_request`, `_post_request`, the header tables, the GeckoTerminal client and `web_api_base.py` are not part of this model. A request is a function given to the operation.
- Actor platform I/O: `Actor.get_input` is a parameter, `push_data` and logging are left out. `main`'s composition of the two builders, the scraper and the filter is not modelled as one operation.
- async/await: `retry` and `exception_handler` are modelled over synchronous outcomes. The model does not claim that the scraper's coroutines are retried or wrapped at run time.
- Sleeping, clocks and randomness: `Retry` returns the list of delays it would sleep, and raises ValueError where the sleep would. Dates are whole timestamps, and the `days_ago` default of `min_created_date` is the caller's.
- Floats: prices are exact reals. `convert_percentage`, `Pool.get_token_pool` and the price computations are not part of this model. The pool lookup is a function returning optional pricing.
- `operator.attrgetter` with dotted paths: only single-level field lookup is modelled.
- Field values in the query string: a `Param` holds the text `str()` gives each field value, taken as input. How `str` prints None ("None"), a float or a datetime (with a space) is not modelled.
- Python's invariants on collections: a `VSet` may hold unhashable elements, and an `Args` sequence may repeat a key. No Python set or dict can do either. Operations on such values follow the same definitions; the model does not exclude them.
- Pydantic validation: `PumpScraperToken`, `PumpToken` and the filter models are records of the fields the logic reads. Validation errors, defaults and `scraped_date` are not modelled.
- `get_trades` and the other endpoints of `PumpApi` are outside the modelled core.
- ApiUtils.ExceptionHandler: `str(e)` of an ApiException is taken as its message. Python prints the `(message, cause)` argument tuple.
- PumpApi.GetTokens: takes a ghost page index by which the loop has stopped: the server answers it empty or with an error, or the pages before it hold `limit` kept coins. The source's loop never ends on a server whose pages never come back empty while the filter keeps fewer than `limit` coins; the model does not describe that run. It also treats each date bound as set or unset, where the source tests the truthiness of a datetime.
- PumpScraper.Merged: models the evidently intended merge of the coin's and the pool's fields. As written, src/pump_scraper.py:42 calls `model_dump()` on `TokenPool`, a pydantic dataclass (src/models/instruments/pool.py:111-112) that has no such method, so the merge raises AttributeError. A coin field named like a pool field would also make Python raise a TypeError for the repeated keyword; the token model has no such field, and the model lets the pool's value stand.
- PumpScraper.GetResults: models the evidently intended records, one per coin. As written the scraper produces none: `PumpScraperToken` requires `scraped_date` (src/pump_scraper.py:15), which no construction at lines 34, 45 and 48 supplies, so validation fails on the first coin; and `PumpScraper.__init__` calls `GeckoTerminal()` without its required `logger` (src/pump_scraper.py:22), which raises TypeError before any call. The pool lookup is abstract as well: in the source, `get_pool` returns a `format_response` dict that is awaited, and whose `get_token_pool` does not exist.
- PumpApi.KeepPageWithinDates: a coin's `created_timestamp` is a whole timestamp. The token model declares it `Optional[datetime]` (src/models/instruments/token.py:19); a coin without one makes the date filter's comparison raise TypeError (src/api/pump.py:85, 87), a failure the model's `GetTokens` cannot produce.
- PyValues.PyEq: an iterator (`VIter`) and a model instance (`VObject`) compare structurally. Python compares iterators by identity, so two distinct iterators are never equal, and compares a model's fields with `==`, so a field holding `1` equals one holding `1.0`; the model says neither.
- PyValues.CompareSets: a proper subset is decided as Python does, by size and containment; the model's sets may hold two elements that compare equal (`1` and `1.0`), which a Python set cannot.
