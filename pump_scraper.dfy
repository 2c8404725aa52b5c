/** The scraper: which keyword arguments reach the coin listing, how the
    listing call is dispatched, and the loop that turns every fetched coin
    into one output record, merged with its pool's pricing when the coin has
    graduated to a pool. The pool lookup is a function given to the loop. */
module PumpScraper {
  import opened Common
  import opened PyValues
  import opened Errors
  import opened PumpApi

  /** The keyword arguments `get_results` forwards to `get_coins`. */
  const PumpArgs: set<string> := {"offset", "limit", "sort", "order", "includeNsfw"}

  /** `{k: v for k, v in kwargs.items() if k in pump_args}`. */
  function CoinArgs(kwargs: map<string, Value>): (r: map<string, Value>)
    ensures r.Keys == kwargs.Keys * PumpArgs
    ensures forall k :: k in r ==> r[k] == kwargs[k]
  {
    map k | k in kwargs && k in PumpArgs :: kwargs[k]
  }

  /** The call `get_coins` makes: a search when `term` is truthy, the listing otherwise. */
  datatype CoinsCall =
    | SearchCall(term: Value, offset: Value, limit: Value, rest: map<string, Value>)
    | ListingCall(offset: Value, limit: Value, rest: map<string, Value>)

  function Get(args: map<string, Value>, key: string, default: Value): Value
  {
    if key in args then args[key] else default
  }

  /** `get_coins(term=None, offset=0, limit=50, **kwargs)`. */
  function GetCoins(args: map<string, Value>): (r: CoinsCall)
    ensures r.SearchCall? <==> "term" in args && Truthy(args["term"])
    ensures r.offset == Get(args, "offset", VInt(0)) && r.limit == Get(args, "limit", VInt(50))
    ensures r.rest.Keys == args.Keys - {"term", "offset", "limit"}
    ensures forall k :: k in r.rest ==> r.rest[k] == args[k]
  {
    var term := Get(args, "term", VNone);
    var offset := Get(args, "offset", VInt(0));
    var limit := Get(args, "limit", VInt(50));
    var rest := map k | k in args && k !in {"term", "offset", "limit"} :: args[k];
    if Truthy(term) then SearchCall(term, offset, limit, rest) else ListingCall(offset, limit, rest)
  }

  /** `term` is not among the forwarded arguments, so `get_results` always
      lists and never searches, and the listing sees only the pagination and
      ordering arguments, with the defaults offset 0 and limit 50. */
  lemma GetResultsNeverSearches(kwargs: map<string, Value>)
    ensures GetCoins(CoinArgs(kwargs)).ListingCall?
    ensures GetCoins(CoinArgs(kwargs)).offset == Get(kwargs, "offset", VInt(0))
    ensures GetCoins(CoinArgs(kwargs)).limit == Get(kwargs, "limit", VInt(50))
    ensures GetCoins(CoinArgs(kwargs)).rest.Keys <= {"sort", "order", "includeNsfw"}
  {
    assert "term" !in CoinArgs(kwargs);
  }

  /** The pricing a pool lookup yields; prices are opaque real values here. */
  datatype TokenPool = TokenPool(poolName: string, price: real, priceChange24h: real)

  const PoolKeys: set<string> := {"pool_name", "price", "price_change_24h"}

  function PoolFields(p: TokenPool): (r: Record)
    ensures r.Keys == PoolKeys
    ensures r["pool_name"] == VStr(p.poolName) && r["price"] == VFloat(p.price) &&
      r["price_change_24h"] == VFloat(p.priceChange24h)
  {
    map["pool_name" := VStr(p.poolName), "price" := VFloat(p.price), "price_change_24h" := VFloat(p.priceChange24h)]
  }

  /** The fields every coin dumps, whatever else it carries. */
  const CoinKeys: set<string> := {"symbol", "mint", "raydium_pool", "complete", "created_timestamp"}

  /** `coin.model_dump()`: the coin's own fields, and its other fields unchanged. */
  function CoinRecord(c: Coin): (r: Record)
    ensures r.Keys == c.other.Keys + CoinKeys
    ensures "symbol" in r && r["symbol"] == VStr(c.symbol)
    ensures "mint" in r && r["mint"] == VStr(c.mint)
    ensures "complete" in r && r["complete"] == VBool(c.complete)
    ensures "raydium_pool" in r && r["raydium_pool"] == (if c.raydiumPool.Some? then VStr(c.raydiumPool.value) else VNone)
    ensures "created_timestamp" in r && r["created_timestamp"] == VDate(c.created)
    ensures forall k :: k in c.other && k !in CoinKeys ==> k in r && r[k] == c.other[k]
  {
    c.other + map[
      "symbol" := VStr(c.symbol),
      "mint" := VStr(c.mint),
      "raydium_pool" := (if c.raydiumPool.Some? then VStr(c.raydiumPool.value) else VNone),
      "complete" := VBool(c.complete),
      "created_timestamp" := VDate(c.created)]
  }

  /** The coin's fields together with the pool's name, price and 24h change. */
  function Merged(c: Coin, p: TokenPool): (r: Record)
    ensures r.Keys == CoinRecord(c).Keys + PoolKeys
    ensures forall k :: k in PoolKeys ==> r[k] == PoolFields(p)[k]
    ensures forall k :: k in CoinRecord(c) && k !in PoolKeys ==> r[k] == CoinRecord(c)[k]
  {
    CoinRecord(c) + PoolFields(p)
  }

  /** `not coin.raydium_pool`: a missing or empty pool id means no pool. */
  predicate HasPool(c: Coin)
  {
    c.raydiumPool.Some? && c.raydiumPool.value != ""
  }

  /** Only a complete coin with a pool is looked up. */
  predicate NeedsLookup(c: Coin)
  {
    c.complete && HasPool(c)
  }

  /** The record `get_results` emits for one coin: a coin-only record unless
      the coin needs a lookup and the lookup yields pricing. */
  function Output(c: Coin, lookup: string -> Result<Option<TokenPool>, Raised>): (r: Result<Record, Raised>)
    ensures !NeedsLookup(c) ==> r == Ok(CoinRecord(c))
    ensures NeedsLookup(c) && lookup(c.raydiumPool.value).Ok? ==>
      r == Ok(if lookup(c.raydiumPool.value).value.Some?
              then Merged(c, lookup(c.raydiumPool.value).value.value)
              else CoinRecord(c))
    ensures NeedsLookup(c) && lookup(c.raydiumPool.value).Err? ==> r == Err(lookup(c.raydiumPool.value).error)
  {
    if !NeedsLookup(c) then Ok(CoinRecord(c))
    else
      var pool :- lookup(c.raydiumPool.value);
      if pool.Some? then Ok(Merged(c, pool.value)) else Ok(CoinRecord(c))
  }

  /** The records of the coins in order, up to the first failing lookup. */
  function Outputs(coins: seq<Coin>, lookup: string -> Result<Option<TokenPool>, Raised>): Result<seq<Record>, Raised>
  {
    if coins == [] then Ok([])
    else
      var before :- Outputs(coins[..|coins| - 1], lookup);
      var last :- Output(coins[|coins| - 1], lookup);
      Ok(before + [last])
  }

  /** The pool ids of the coins that need a lookup, in coin order. */
  function LookupIds(coins: seq<Coin>): seq<string>
  {
    if coins == [] then []
    else
      var c := coins[|coins| - 1];
      LookupIds(coins[..|coins| - 1]) + (if NeedsLookup(c) then [c.raydiumPool.value] else [])
  }

  lemma {:induction false} OutputsKeepError(coins: seq<Coin>, lookup: string -> Result<Option<TokenPool>, Raised>, k: nat)
    requires k <= |coins| && Outputs(coins[..k], lookup).Err?
    ensures Outputs(coins, lookup) == Outputs(coins[..k], lookup)
    decreases |coins| - k
  {
    if k < |coins| {
      assert coins[..k + 1][..k] == coins[..k];
      OutputsKeepError(coins, lookup, k + 1);
    } else {
      assert coins[..k] == coins;
    }
  }

  /** `get_results`' loop: one record per coin, looking up the pool of every
      complete coin that has one; a lookup that raises ends the loop. */
  method GetResults(coins: seq<Coin>, lookup: string -> Result<Option<TokenPool>, Raised>)
    returns (r: Result<seq<Record>, Raised>, lookups: seq<string>)
    ensures r == Outputs(coins, lookup)
    ensures r.Ok? ==> lookups == LookupIds(coins)
    ensures r.Err? ==> (exists k :: 0 <= k < |coins| && lookups == LookupIds(coins[..k + 1]) &&
                          NeedsLookup(coins[k]) && lookup(coins[k].raydiumPool.value) == Err(r.error))
  {
    var results: seq<Record> := [];
    lookups := [];
    for i := 0 to |coins|
      invariant Outputs(coins[..i], lookup) == Ok(results)
      invariant lookups == LookupIds(coins[..i])
    {
      var coin := coins[i];
      assert coins[..i + 1][..i] == coins[..i];
      if !HasPool(coin) {
        results := results + [CoinRecord(coin)];
        continue;
      }
      if coin.complete && HasPool(coin) {
        lookups := lookups + [coin.raydiumPool.value];
        var pool := lookup(coin.raydiumPool.value);
        if pool.Err? {
          OutputsKeepError(coins, lookup, i + 1);
          return Err(pool.error), lookups;
        }
        if pool.value.Some? {
          results := results + [Merged(coin, pool.value.value)];
        } else {
          results := results + [CoinRecord(coin)];
        }
      } else {
        results := results + [CoinRecord(coin)];
      }
    }
    assert coins[..|coins|] == coins;
    r := Ok(results);
  }

  predicate AllOutput(coins: seq<Coin>, lookup: string -> Result<Option<TokenPool>, Raised>)
  {
    forall i :: 0 <= i < |coins| ==> Output(coins[i], lookup).Ok?
  }

  predicate OutputsMatch(coins: seq<Coin>, lookup: string -> Result<Option<TokenPool>, Raised>, records: seq<Record>)
    requires AllOutput(coins, lookup)
  {
    |records| == |coins| && forall i :: 0 <= i < |coins| ==> records[i] == Output(coins[i], lookup).value
  }

  /** Exactly one record per coin, in coin order, each the coin's own output;
      the loop fails only when a lookup raises. */
  lemma {:induction false} OneRecordPerCoin(coins: seq<Coin>, lookup: string -> Result<Option<TokenPool>, Raised>)
    ensures Outputs(coins, lookup).Ok? <==> AllOutput(coins, lookup)
    ensures Outputs(coins, lookup).Ok? ==> OutputsMatch(coins, lookup, Outputs(coins, lookup).value)
  {
    if coins != [] {
      var init := coins[..|coins| - 1];
      OneRecordPerCoin(init, lookup);
      AppendOutput(init, coins[|coins| - 1], lookup);
      assert init + [coins[|coins| - 1]] == coins;
    }
  }

  lemma AppendOutput(init: seq<Coin>, c: Coin, lookup: string -> Result<Option<TokenPool>, Raised>)
    ensures AllOutput(init + [c], lookup) <==> AllOutput(init, lookup) && Output(c, lookup).Ok?
    ensures AllOutput(init, lookup) && Output(c, lookup).Ok? ==>
      forall records :: OutputsMatch(init, lookup, records) ==>
        OutputsMatch(init + [c], lookup, records + [Output(c, lookup).value])
  {
    assert forall i :: 0 <= i < |init| ==> (init + [c])[i] == init[i];
    assert (init + [c])[|init|] == c;
  }

  /** The lookups are made for exactly the complete coins with a pool, in order. */
  lemma {:induction false} LookupIdsAreNeeded(coins: seq<Coin>)
    ensures LookupIds(coins) == Ids(Filter(coins, NeedsLookup))
  {
    if coins != [] {
      var init := coins[..|coins| - 1];
      var c := coins[|coins| - 1];
      LookupIdsAreNeeded(init);
      assert init + [c] == coins;
      FilterSnoc(init, c, NeedsLookup);
      IdsAppend(Filter(init, NeedsLookup), if NeedsLookup(c) then [c] else []);
    }
  }

  /** The pool ids of coins that have one. */
  function Ids(coins: seq<Coin>): seq<string>
    requires forall i :: 0 <= i < |coins| ==> coins[i].raydiumPool.Some?
  {
    seq(|coins|, i requires 0 <= i < |coins| => coins[i].raydiumPool.value)
  }

  lemma IdsAppend(a: seq<Coin>, b: seq<Coin>)
    requires forall i :: 0 <= i < |a| ==> a[i].raydiumPool.Some?
    requires forall i :: 0 <= i < |b| ==> b[i].raydiumPool.Some?
    ensures Ids(a + b) == Ids(a) + Ids(b)
  {
  }
}
