/** The pump.fun listing client: the paginated token listing with its date
    and graduation filters, and the empty-term guards of the search calls.
    The HTTP request is a function given to each operation. */
module PumpApi {
  import opened Common
  import opened PyValues
  import opened Errors
  import opened ApiBase

  /** The fields of a listed token the scraper's logic reads; `other` holds
      the remaining dumped fields. Creation times are whole timestamps. */
  datatype Coin = Coin(symbol: string, mint: string, raydiumPool: Option<string>, complete: bool, created: int, other: Record)

  /** The listing filter: the requested count, the graduation flag and the
      creation-date bounds (the lower bound's clock default is the caller's). */
  datatype CoinsFilter = CoinsFilter(limit: int, isGraduated: Option<bool>, maxCreated: Option<int>, minCreated: Option<int>)

  const MaxPageSize := 50

  /** `min(params.limit, 50)`. */
  function PageSize(limit: int): (size: int)
    ensures size <= MaxPageSize && size <= limit && (size == limit || size == MaxPageSize)
    ensures limit > 0 ==> size > 0
  {
    if limit < MaxPageSize then limit else MaxPageSize
  }

  /** Page `i` is requested at offset `i * size`. */
  function Offset(f: CoinsFilter, i: nat): int
  {
    i * PageSize(f.limit)
  }

  /** The request for page `i`. */
  function Page(fetch: (int, int) -> Result<seq<Coin>, Raised>, f: CoinsFilter, i: nat): Result<seq<Coin>, Raised>
  {
    fetch(Offset(f, i), PageSize(f.limit))
  }

  predicate DateOk(f: CoinsFilter, c: Coin)
  {
    (f.maxCreated.Some? ==> c.created <= f.maxCreated.value) &&
    (f.minCreated.Some? ==> c.created >= f.minCreated.value)
  }

  predicate Completed(c: Coin)
  {
    c.complete
  }

  function CreatedAtMost(bound: int): Coin -> bool
  {
    (c: Coin) => c.created <= bound
  }

  function CreatedAtLeast(bound: int): Coin -> bool
  {
    (c: Coin) => c.created >= bound
  }

  /** The coins kept from one page. With a graduation flag set, whatever its
      value, they are exactly the complete coins of the raw page and the date
      bounds are ignored; otherwise the date bounds that are set apply (see
      `KeepPageWithinDates`). Either way the page order is kept. */
  function KeepPage(f: CoinsFilter, page: seq<Coin>): (r: seq<Coin>)
    ensures f.isGraduated.Some? ==> r == Filter(page, Completed)
    ensures Subseq(r, page)
  {
    if f.isGraduated.Some? then Filter(page, Completed)
    else
      var upper := if f.maxCreated.Some? then Filter(page, CreatedAtMost(f.maxCreated.value)) else page;
      var both := if f.minCreated.Some? then Filter(upper, CreatedAtLeast(f.minCreated.value)) else upper;
      SubseqRefl(page);
      SubseqRefl(upper);
      SubseqTrans(both, upper, page);
      both
  }

  /** Without a graduation flag, a coin is kept exactly when it occurs in
      the page and lies within the date bounds that are set. */
  lemma KeepPageWithinDates(f: CoinsFilter, page: seq<Coin>, c: Coin)
    requires f.isGraduated.None?
    ensures c in KeepPage(f, page) <==> c in page && DateOk(f, c)
  {
    var upper := if f.maxCreated.Some? then Filter(page, CreatedAtMost(f.maxCreated.value)) else page;
    if f.maxCreated.Some? {
      FilterMembers(page, CreatedAtMost(f.maxCreated.value), c);
    }
    if f.minCreated.Some? {
      FilterMembers(upper, CreatedAtLeast(f.minCreated.value), c);
    }
  }

  /** With a graduation flag, a coin is kept exactly when it occurs in the
      page and is complete. */
  lemma KeepPageGraduated(f: CoinsFilter, page: seq<Coin>, c: Coin)
    requires f.isGraduated.Some?
    ensures c in KeepPage(f, page) <==> c in page && c.complete
  {
    FilterMembers(page, Completed, c);
  }

  /** The loop ran `n` full rounds: each of the first `n` pages was requested
      while fewer than `limit` coins were kept, and came back without error
      and not empty. */
  predicate PagesOk(fetch: (int, int) -> Result<seq<Coin>, Raised>, f: CoinsFilter, n: nat)
  {
    n == 0 ||
    (PagesOk(fetch, f, n - 1) && |Collected(fetch, f, n - 1)| < f.limit &&
     Page(fetch, f, n - 1).Ok? && Page(fetch, f, n - 1).value != [])
  }

  /** The coins of page `i`, or none when it failed. */
  function PageCoins(fetch: (int, int) -> Result<seq<Coin>, Raised>, f: CoinsFilter, i: nat): seq<Coin>
  {
    if Page(fetch, f, i).Ok? then Page(fetch, f, i).value else []
  }

  /** The coins accumulated after `n` pages. */
  function Collected(fetch: (int, int) -> Result<seq<Coin>, Raised>, f: CoinsFilter, n: nat): seq<Coin>
  {
    if n == 0 then [] else Collected(fetch, f, n - 1) + KeepPage(f, PageCoins(fetch, f, n - 1))
  }

  /** The raw coins of the first `n` pages, in page order. */
  function Fetched(fetch: (int, int) -> Result<seq<Coin>, Raised>, f: CoinsFilter, n: nat): seq<Coin>
  {
    if n == 0 then [] else Fetched(fetch, f, n - 1) + PageCoins(fetch, f, n - 1)
  }

  /** `get_tokens`: requests pages of `min(limit, 50)` coins at offsets
      0, size, 2*size, … (whatever offset was asked for), keeps the filtered
      coins of each page and stops on an empty page, on an error, or once at
      least `limit` coins are kept; the last page is not truncated. `lastPage`
      is a page by which the loop has stopped: the server answers it with an
      empty page or an error, or the pages before it already hold `limit`
      kept coins. Without one the loop of the source does not end. */
  method GetTokens(fetch: (int, int) -> Result<seq<Coin>, Raised>, f: CoinsFilter, ghost lastPage: nat)
    returns (r: Result<seq<Coin>, Raised>, counter: nat, offsets: seq<int>)
    requires Page(fetch, f, lastPage).Err? || Page(fetch, f, lastPage) == Ok([]) ||
             |Collected(fetch, f, lastPage)| >= f.limit
    ensures counter <= lastPage && PagesOk(fetch, f, counter)
    ensures forall i :: 0 <= i < |offsets| ==> offsets[i] == Offset(f, i)
    ensures r.Ok? ==> r.value == Collected(fetch, f, counter)
    ensures r.Ok? && |r.value| >= f.limit ==> |offsets| == counter
    ensures r.Ok? && |r.value| < f.limit ==> |offsets| == counter + 1 && Page(fetch, f, counter) == Ok([])
    ensures r.Err? ==>
      |offsets| == counter + 1 && |Collected(fetch, f, counter)| < f.limit && Page(fetch, f, counter) == Err(r.error)
  {
    var coins: seq<Coin> := [];
    counter, offsets := 0, [];
    var limit := PageSize(f.limit);
    while |coins| < f.limit
      invariant counter <= lastPage && PagesOk(fetch, f, counter)
      invariant coins == Collected(fetch, f, counter)
      invariant |offsets| == counter
      invariant forall i :: 0 <= i < |offsets| ==> offsets[i] == Offset(f, i)
      decreases lastPage - counter
    {
      var result := fetch(counter * limit, limit);
      assert result == Page(fetch, f, counter);
      assert counter * limit == Offset(f, counter);
      OffsetsGrow(f, offsets, counter * limit);
      offsets := offsets + [counter * limit];
      if result.Err? {
        return Err(result.error), counter, offsets;
      }
      if result.value == [] {
        return Ok(coins), counter, offsets;
      }
      BeforeLastPage(fetch, f, counter, lastPage);
      var filtered := FilterPage(f, result.value);
      assert coins + filtered == Collected(fetch, f, counter + 1);
      assert PagesOk(fetch, f, counter + 1);
      counter := counter + 1;
      coins := coins + filtered;
    }
    r := Ok(coins);
  }

  /** The date and graduation filters applied to one raw page, in the
      source's order: the date bounds first, then a graduation flag that
      overrides them by filtering the raw page again. */
  method FilterPage(f: CoinsFilter, page: seq<Coin>) returns (filtered: seq<Coin>)
    ensures filtered == KeepPage(f, page)
  {
    filtered := page;
    if f.maxCreated.Some? || f.minCreated.Some? {
      if f.maxCreated.Some? {
        filtered := Filter(filtered, CreatedAtMost(f.maxCreated.value));
      }
      if f.minCreated.Some? {
        filtered := Filter(filtered, CreatedAtLeast(f.minCreated.value));
      }
    }
    if f.isGraduated.Some? {
      filtered := Filter(page, Completed);
    }
  }

  /** A page that came back non-empty while fewer than `limit` coins were
      kept is not the page by which the loop has stopped. */
  lemma BeforeLastPage(fetch: (int, int) -> Result<seq<Coin>, Raised>, f: CoinsFilter, counter: nat, lastPage: nat)
    requires Page(fetch, f, lastPage).Err? || Page(fetch, f, lastPage) == Ok([]) ||
             |Collected(fetch, f, lastPage)| >= f.limit
    requires counter <= lastPage && |Collected(fetch, f, counter)| < f.limit
    requires Page(fetch, f, counter).Ok? && Page(fetch, f, counter).value != []
    ensures counter < lastPage
  {
  }

  /** Appending the next page's offset keeps every offset in its place. */
  lemma OffsetsGrow(f: CoinsFilter, offsets: seq<int>, next: int)
    requires forall i :: 0 <= i < |offsets| ==> offsets[i] == Offset(f, i)
    requires next == Offset(f, |offsets|)
    ensures forall i :: 0 <= i < |offsets| + 1 ==> (offsets + [next])[i] == Offset(f, i)
  {
  }

  /** The per-coin test the page filter applies. */
  predicate Passes(f: CoinsFilter, c: Coin)
  {
    if f.isGraduated.Some? then c.complete else DateOk(f, c)
  }

  predicate AllPass(f: CoinsFilter, coins: seq<Coin>)
  {
    forall i :: 0 <= i < |coins| ==> Passes(f, coins[i])
  }

  lemma KeptPasses(f: CoinsFilter, page: seq<Coin>)
    ensures AllPass(f, KeepPage(f, page))
  {
    var kept := KeepPage(f, page);
    forall i | 0 <= i < |kept| ensures Passes(f, kept[i]) {
      if f.isGraduated.None? {
        KeepPageWithinDates(f, page, kept[i]);
      } else {
        assert Completed(kept[i]);
      }
    }
  }

  lemma AllPassConcat(f: CoinsFilter, a: seq<Coin>, b: seq<Coin>)
    requires AllPass(f, a) && AllPass(f, b)
    ensures AllPass(f, a + b)
  {
    forall i | 0 <= i < |a + b| ensures Passes(f, (a + b)[i]) {
      if i >= |a| {
        assert (a + b)[i] == b[i - |a|];
      }
    }
  }

  /** Every accumulated coin passes the page filter: it is complete when a
      graduation flag is set, and within the date bounds otherwise. */
  lemma {:induction false} CollectedSatisfiesFilter(fetch: (int, int) -> Result<seq<Coin>, Raised>, f: CoinsFilter, n: nat)
    ensures AllPass(f, Collected(fetch, f, n))
  {
    if n > 0 {
      var page := PageCoins(fetch, f, n - 1);
      var before := Collected(fetch, f, n - 1);
      var kept := KeepPage(f, page);
      assert AllPass(f, before) by { CollectedSatisfiesFilter(fetch, f, n - 1); }
      assert AllPass(f, kept) by { KeptPasses(f, page); }
      AllPassConcat(f, before, kept);
    }
  }

  /** The accumulated coins keep the page order and the order within each page. */
  lemma {:induction false} CollectedKeepsOrder(fetch: (int, int) -> Result<seq<Coin>, Raised>, f: CoinsFilter, n: nat)
    ensures Subseq(Collected(fetch, f, n), Fetched(fetch, f, n))
  {
    if n == 0 {
      SubseqEmpty<Coin>([]);
    } else {
      CollectedKeepsOrder(fetch, f, n - 1);
      var page := PageCoins(fetch, f, n - 1);
      SubseqConcat(Collected(fetch, f, n - 1), Fetched(fetch, f, n - 1), KeepPage(f, page), page);
    }
  }

  /** With the graduation flag set, the date bounds make no difference. */
  lemma GraduatedIgnoresDates(f: CoinsFilter, page: seq<Coin>)
    requires f.isGraduated.Some?
    ensures KeepPage(f, page) == KeepPage(f.(maxCreated := None, minCreated := None), page)
    ensures KeepPage(f, page) == KeepPage(f.(isGraduated := Some(!f.isGraduated.value)), page)
  {
  }

  /** A page of 50 coins. */
  function FullPage(c: Coin): seq<Coin>
  {
    seq(MaxPageSize, _ => c)
  }

  /** With a limit above 50 and pages of 50, the listing overshoots the limit:
      after the first page fewer than 60 coins are kept, after the second 100. */
  lemma ListingOvershoots(c: Coin)
    ensures var f := CoinsFilter(60, None, None, None);
      var fetch := (offset: int, limit: int) => Ok(FullPage(c));
      PagesOk(fetch, f, 2) && |Collected(fetch, f, 1)| < f.limit && |Collected(fetch, f, 2)| == 100
  {
    var f := CoinsFilter(60, None, None, None);
    var fetch := (offset: int, limit: int) => Ok(FullPage(c));
    assert forall page :: KeepPage(f, page) == page;
    assert |Collected(fetch, f, 1)| == 50;
  }

  /** On a server whose pages never run dry, the listing still ends, on its
      limit: with limit 60 it stops after two pages, holding 100 coins. */
  method ListingStopsOnLimit(c: Coin) returns (r: Result<seq<Coin>, Raised>, counter: nat)
    ensures r.Ok? && |r.value| == 100 && counter == 2
  {
    var f := CoinsFilter(60, None, None, None);
    var fetch := (offset: int, limit: int) => Ok(FullPage(c));
    ListingOvershoots(c);
    var offsets;
    r, counter, offsets := GetTokens(fetch, f, 2);
    assert Page(fetch, f, counter) == Ok(FullPage(c));
    assert FullPage(c) != [];
    assert |Collected(fetch, f, 0)| == 0;
  }

  /** The error returned, not raised, for an empty search term. */
  const NoSymbol := ApiError("INVALID", "No symbol passed", None)

  /** `search_token`: an empty term gives the INVALID error without a request;
      otherwise the search for the term is shaped by `_get_single`. */
  function SearchToken(term: string, request: string -> Result<Value, Raised>, build: Value -> Result<Coin, Raised>): (r: Result<Result<Option<Coin>, ApiError>, Raised>)
    ensures term == "" ==> r == Ok(Err(NoSymbol))
    ensures term != "" ==> r.Ok? == GetSingle(request(term), None, build).Ok?
    ensures term != "" && r.Ok? ==> r.value == Ok(GetSingle(request(term), None, build).value)
    ensures term != "" && r.Err? ==> GetSingle(request(term), None, build) == Err(r.error)
    ensures r.Err? ==> r.error.ApiException? || !IsException(r.error)
  {
    if term == "" then Ok(Err(NoSymbol))
    else
      var found :- GetSingle(request(term), None, build);
      Ok(Ok(found))
  }

  /** `search_tokens`: as `search_token`, with the results shaped by `_get_list`. */
  function SearchTokens(term: string, request: string -> Result<Value, Raised>, build: Value -> Result<Coin, Raised>): (r: Result<Result<seq<Coin>, ApiError>, Raised>)
    ensures term == "" ==> r == Ok(Err(NoSymbol))
    ensures term != "" ==> r.Ok? == GetList(request(term), None, build).Ok?
    ensures term != "" && r.Ok? ==> r.value == Ok(GetList(request(term), None, build).value)
    ensures term != "" && r.Err? ==> GetList(request(term), None, build) == Err(r.error)
    ensures r.Err? ==> r.error.ApiException? || !IsException(r.error)
  {
    if term == "" then Ok(Err(NoSymbol))
    else
      var found :- GetList(request(term), None, build);
      Ok(Ok(found))
  }

  /** An empty term never consults the request. */
  lemma EmptyTermMakesNoRequest(request1: string -> Result<Value, Raised>, request2: string -> Result<Value, Raised>, build: Value -> Result<Coin, Raised>)
    ensures SearchToken("", request1, build) == SearchToken("", request2, build)
    ensures SearchTokens("", request1, build) == SearchTokens("", request2, build)
  {
  }
}
