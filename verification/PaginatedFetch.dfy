/** The client's paginated requests: page loops, batches of concurrent requests, and chunks of ids. */
module PaginatedFetch {
  import opened Wrappers
  import opened Paging
  import opened Sequences

  datatype Page<T> = Page(data: seq<T>, total: nat)

  type Response<T> = Result<Page<T>, string>

  /** The number of pages of `total` records, rounded up. */
  function TotalPages(total: nat, size: nat): nat
    requires size > 0
  {
    (total + size - 1) / size
  }

  lemma TotalPagesIsCeiling(total: nat, size: nat)
    requires size > 0
    ensures total <= TotalPages(total, size) * size
    ensures TotalPages(total, size) == 0 <==> total == 0
    ensures total > 0 ==> (TotalPages(total, size) - 1) * size < total
  {
    var n := TotalPages(total, size);
    assert n * size + (total + size - 1) % size == total + size - 1;
    assert (n - 1) * size == n * size - size;
  }

  /** Page 0 is always requested. */
  function PagesNeeded(total: nat, size: nat): nat
    requires size > 0
  {
    if TotalPages(total, size) == 0 then 1 else TotalPages(total, size)
  }

  ghost predicate AllOk<T>(fetch: nat -> Response<T>, n: nat) {
    forall k: nat | k < n :: fetch(k).Ok?
  }

  /** The data of the first `n` pages, in order. */
  ghost function Joined<T>(fetch: nat -> Response<T>, n: nat): seq<T>
    requires AllOk(fetch, n)
  {
    if n == 0 then [] else Joined(fetch, n - 1) + fetch(n - 1).value.data
  }

  function Range(n: nat): seq<nat> {
    seq(n, i => i)
  }

  ghost predicate SomePageFailed<T>(fetch: nat -> Response<T>, n: nat, error: string) {
    exists k: nat :: k < n && fetch(k) == Err(error)
  }

  /** One batch of concurrent requests; it fails if any of them does. */
  method FetchBatch<T>(fetch: nat -> Response<T>, page: nat, count: nat)
    returns (r: Result<seq<T>, string>, requested: seq<nat>)
    requires AllOk(fetch, page)
    ensures requested == seq(count, i => page + i)
    ensures r.Ok? ==> AllOk(fetch, page + count) && Joined(fetch, page) + r.value == Joined(fetch, page + count)
    ensures r.Err? ==> SomePageFailed(fetch, page + count, r.error)
  {
    requested := seq(count, i => page + i);
    var all: seq<T> := [];
    for i := 0 to count
      invariant AllOk(fetch, page + i) && Joined(fetch, page) + all == Joined(fetch, page + i)
    {
      var response := fetch(page + i);
      if response.Err? { return Err(response.error), requested; }
      all := all + response.value.data;
    }
    r := Ok(all);
  }

  // ------------------------------------------------------------------ when the page loop ends

  /** Where one round of the page loop leads. */
  function NextPage(page: nat, totalPages: nat, concurrency: nat): nat {
    if page < totalPages then page + Min(totalPages - page, concurrency) else page
  }

  function PageAfter(start: nat, totalPages: nat, concurrency: nat, rounds: nat): nat {
    if rounds == 0 then start
    else NextPage(PageAfter(start, totalPages, concurrency, rounds - 1), totalPages, concurrency)
  }

  predicate LoopEnds(start: nat, totalPages: nat, concurrency: nat) {
    concurrency > 0 || totalPages <= start
  }

  lemma {:induction false} PageStands(start: nat, totalPages: nat, rounds: nat)
    ensures PageAfter(start, totalPages, 0, rounds) == start
  {
    if rounds == 0 {
    } else {
      PageStands(start, totalPages, rounds - 1);
    }
  }

  lemma {:induction false} PageMoves(start: nat, totalPages: nat, concurrency: nat, rounds: nat)
    requires concurrency > 0
    ensures PageAfter(start, totalPages, concurrency, rounds) >= Min(totalPages, start + rounds)
  {
    if rounds == 0 {
    } else {
      PageMoves(start, totalPages, concurrency, rounds - 1);
    }
  }

  /**
  With at most `concurrency` requests to a round, some number of rounds gets through all pages exactly when
  requests may run at all, or none is left. The same is true of chunks that each wait for one of
  `concurrency` permits.
  */
  lemma LoopEndsIff(start: nat, totalPages: nat, concurrency: nat)
    ensures (exists rounds: nat :: PageAfter(start, totalPages, concurrency, rounds) >= totalPages)
      <==> LoopEnds(start, totalPages, concurrency)
  {
    if concurrency > 0 {
      PageMoves(start, totalPages, concurrency, totalPages);
    } else if totalPages <= start {
      assert PageAfter(start, totalPages, concurrency, 0) >= totalPages;
    } else {
      forall rounds: nat ensures PageAfter(start, totalPages, 0, rounds) == start {
        PageStands(start, totalPages, rounds);
      }
    }
  }

  /**
  Fetches every page of an unfiltered list. The number of pages is taken from the first response; after
  that as many pages are requested at a time as `concurrency` allows. A concurrency of 0 is good for one
  page only; with more the loop never ends.
  */
  method FetchAll<T>(fetch: nat -> Response<T>, size: nat, concurrency: nat)
    returns (r: Result<seq<T>, string>, requested: seq<nat>)
    requires size > 0
    requires LoopEnds(1, if fetch(0).Ok? then TotalPages(fetch(0).value.total, size) else 0, concurrency)
    ensures fetch(0).Err? ==> r == Err(fetch(0).error) && requested == [0]
    ensures fetch(0).Ok? ==>
      var n := PagesNeeded(fetch(0).value.total, size);
      && (r.Ok? <==> AllOk(fetch, n))
      && (r.Ok? ==> r.value == Joined(fetch, n) && requested == Range(n))
      && (r.Err? ==> SomePageFailed(fetch, n, r.error))
  {
    requested := [0];
    var first := fetch(0);
    if first.Err? { return Err(first.error), requested; }
    var totalPages := TotalPages(first.value.total, size);
    var all, page := first.value.data, 1;
    assert Joined(fetch, 1) == Joined(fetch, 0) + all;
    while page < totalPages
      invariant 1 <= page <= PagesNeeded(first.value.total, size)
      invariant AllOk(fetch, page) && all == Joined(fetch, page) && requested == Range(page)
      decreases totalPages - page
    {
      var count := Min(totalPages - page, concurrency);
      var batch, asked := FetchBatch(fetch, page, count);
      requested := requested + asked;
      if batch.Err? { return Err(batch.error), requested; }
      all := all + batch.value;
      page := page + count;
    }
    r := Ok(all);
  }

  // ------------------------------------------------------------------ what comes back

  /** `fetch` serves `list` in pages of `size`. */
  ghost predicate Serves<T>(fetch: nat -> Response<T>, list: seq<T>, size: nat) {
    forall k: nat :: fetch(k) == Ok(Page(PageOf(list, k, size), |list|))
  }

  lemma {:induction false} JoinedPrefix<T>(fetch: nat -> Response<T>, list: seq<T>, size: nat, n: nat)
    requires Serves(fetch, list, size)
    ensures AllOk(fetch, n) && Joined(fetch, n) == list[..Min(n * size, |list|)]
  {
    if n == 0 {
    } else {
      JoinedPrefix(fetch, list, size, n - 1);
      var start := (n - 1) * size;
      assert n * size == start + size;
      WindowContinues(list, start, size);
    }
  }

  lemma WindowContinues<T>(list: seq<T>, start: nat, size: nat)
    ensures list[..Min(start, |list|)] + Window(list, start, size) == list[..Min(start + size, |list|)]
  {}

  /** The pages of a list, put together in order, are the list. */
  lemma PagesAreTheList<T>(fetch: nat -> Response<T>, list: seq<T>, size: nat)
    requires size > 0 && Serves(fetch, list, size)
    ensures fetch(0).Ok? && AllOk(fetch, PagesNeeded(fetch(0).value.total, size))
    ensures Joined(fetch, PagesNeeded(fetch(0).value.total, size)) == list
  {
    var n := PagesNeeded(|list|, size);
    TotalPagesIsCeiling(|list|, size);
    JoinedPrefix(fetch, list, size, n);
    assert Min(n * size, |list|) == |list|;
  }

  /** From the client's page loop to the server's two stores: the client gets all that either holds. */
  lemma ClientSeesBothStores(fetch: nat -> Response<Record>, stored: seq<Record>, buffered: seq<Record>, size: nat)
    requires size > 0
    requires forall k: nat :: fetch(k) == Ok(Page(Splice(stored, buffered, k * size, size), |stored| + |buffered|))
    ensures fetch(0).Ok? && AllOk(fetch, PagesNeeded(fetch(0).value.total, size))
    ensures Joined(fetch, PagesNeeded(fetch(0).value.total, size)) == stored + buffered
  {
    forall k: nat ensures fetch(k) == Ok(Page(PageOf(stored + buffered, k, size), |stored + buffered|)) {
      SpliceIsWindow(stored, buffered, k * size, size);
    }
    PagesAreTheList(fetch, stored + buffered, size);
  }

  // ------------------------------------------------------------------ chunks of ids

  type ById = (seq<string>, nat) -> Result<seq<Record>, string>

  /** Which page is asked for with chunk `k`: some requests send 0, some send the number of the chunk. */
  function PageFor(indexed: bool, k: nat): nat {
    if indexed then k else 0
  }

  ghost predicate ChunksOk(serve: ById, ids: seq<string>, size: nat, indexed: bool, n: nat) {
    forall k: nat | k < n :: serve(PageOf(ids, k, size), PageFor(indexed, k)).Ok?
  }

  ghost function JoinedChunks(serve: ById, ids: seq<string>, size: nat, indexed: bool, n: nat): seq<Record>
    requires ChunksOk(serve, ids, size, indexed, n)
  {
    if n == 0 then []
    else
      JoinedChunks(serve, ids, size, indexed, n - 1)
      + serve(PageOf(ids, n - 1, size), PageFor(indexed, n - 1)).value
  }

  /**
  One request for every chunk of ids, each with a permit; the answers are put together in order. Without
  permits the first chunk waits for ever.
  */
  method FetchByIds(serve: ById, ids: seq<string>, size: nat, concurrency: nat, indexed: bool)
    returns (r: Result<seq<Record>, string>)
    requires size > 0 && LoopEnds(0, TotalPages(|ids|, size), concurrency)
    ensures r.Ok? <==> ChunksOk(serve, ids, size, indexed, TotalPages(|ids|, size))
    ensures r.Ok? ==> r.value == JoinedChunks(serve, ids, size, indexed, TotalPages(|ids|, size))
  {
    var found: seq<Record> := [];
    for k := 0 to TotalPages(|ids|, size)
      invariant ChunksOk(serve, ids, size, indexed, k) && found == JoinedChunks(serve, ids, size, indexed, k)
    {
      var response := serve(PageOf(ids, k, size), PageFor(indexed, k));
      if response.Err? { return Err(response.error); }
      found := found + response.value;
    }
    r := Ok(found);
  }

  /** The server answers with a page of all that matches the ids of the request. */
  ghost predicate ServesIds(serve: ById, records: seq<Record>, size: nat) {
    forall chunk: seq<string>, page: nat ::
      serve(chunk, page) == Ok(PageOf(Match(records, Wanted(chunk)), page, size))
  }

  /** No chunk matches more than one page. */
  lemma ChunkFitsPage(records: seq<Record>, ids: seq<string>, k: nat, size: nat)
    requires DistinctIds(records)
    ensures |Match(records, Wanted(PageOf(ids, k, size)))| <= size
  {
    var chunk := Window(ids, k * size, size);
    MatchBound(records, Wanted(chunk));
    SetOfIds(chunk);
  }

  lemma FirstPageIsAll<T>(list: seq<T>, size: nat)
    requires |list| <= size
    ensures PageOf(list, 0, size) == list
  {}

  lemma LaterPageIsEmpty<T>(list: seq<T>, page: nat, size: nat)
    requires |list| <= size && page > 0
    ensures PageOf(list, page, size) == []
  {
    assert page * size == size + (page - 1) * size;
  }

  /** Asking for more distinct ids asks for disjoint sets. */
  lemma WantedGrows(ids: seq<string>, start: nat, size: nat)
    requires Distinct(ids)
    ensures Wanted(ids[..Min(start + size, |ids|)])
         == Wanted(ids[..Min(start, |ids|)]) + Wanted(Window(ids, start, size))
    ensures Wanted(ids[..Min(start, |ids|)]) !! Wanted(Window(ids, start, size))
  {
    var a, b := Min(start, |ids|), Min(start + size, |ids|);
    assert ids[..b] == ids[..a] + ids[a..b];
    forall i: nat, j: nat | i < a <= j < b ensures ids[i] != ids[j] {}
  }

  /** `find` answers for ids one by one: nothing for none, and for two disjoint sets what it answers for each. */
  ghost predicate Additive(find: set<string> -> seq<Record>) {
    && find({}) == []
    && forall a, b {:trigger find(a + b)} | a !! b :: multiset(find(a + b)) == multiset(find(a)) + multiset(find(b))
  }

  /** Every chunk asked for with page 0 brings all that is to be found. */
  ghost predicate ServesChunks(serve: ById, find: set<string> -> seq<Record>, ids: seq<string>, size: nat) {
    forall k: nat :: serve(PageOf(ids, k, size), 0) == Ok(find(Wanted(PageOf(ids, k, size))))
  }

  ghost function FoundByChunk(find: set<string> -> seq<Record>, ids: seq<string>, size: nat, n: nat): seq<Record> {
    if n == 0 then [] else FoundByChunk(find, ids, size, n - 1) + find(Wanted(PageOf(ids, n - 1, size)))
  }

  lemma {:induction false} ChunksFind(
    serve: ById, find: set<string> -> seq<Record>, ids: seq<string>, size: nat, n: nat)
    requires ServesChunks(serve, find, ids, size)
    ensures ChunksOk(serve, ids, size, false, n)
    ensures JoinedChunks(serve, ids, size, false, n) == FoundByChunk(find, ids, size, n)
  {
    if n == 0 {
    } else {
      ChunksFind(serve, find, ids, size, n - 1);
    }
  }

  /** The ids of the first `k` chunks. */
  function Before(ids: seq<string>, k: nat, size: nat): set<string> {
    Wanted(ids[..Min(k * size, |ids|)])
  }

  /** Chunk `k` adds its own ids to those before it, and none of them was there. */
  ghost predicate AddsItsOwn(ids: seq<string>, k: nat, size: nat) {
    && Before(ids, k, size) !! Wanted(PageOf(ids, k, size))
    && Before(ids, k + 1, size) == Before(ids, k, size) + Wanted(PageOf(ids, k, size))
  }

  lemma DistinctIdsAddTheirOwn(ids: seq<string>, k: nat, size: nat)
    requires Distinct(ids)
    ensures AddsItsOwn(ids, k, size)
  {
    var start := k * size;
    assert (k + 1) * size == start + size;
    WantedGrows(ids, start, size);
  }

  /** The first `n` chunks bring what is to be found for the ids in them. */
  lemma {:induction false} ChunksFindAll(find: set<string> -> seq<Record>, ids: seq<string>, size: nat, n: nat)
    requires Additive(find) && forall k: nat :: AddsItsOwn(ids, k, size)
    ensures multiset(FoundByChunk(find, ids, size, n)) == multiset(find(Before(ids, n, size)))
  {
    if n == 0 {
      assert Before(ids, 0, size) == {};
    } else {
      ChunksFindAll(find, ids, size, n - 1);
      assert AddsItsOwn(ids, n - 1, size);
      assert find(Before(ids, n, size)) == find(Before(ids, n - 1, size) + Wanted(PageOf(ids, n - 1, size)));
    }
  }

  lemma MatchIsAdditive(records: seq<Record>)
    ensures Additive(wanted => Match(records, wanted))
  {
    NoneMatches(records, {});
    forall a: set<string>, b: set<string> | a !! b
      ensures multiset(Match(records, a + b)) == multiset(Match(records, a)) + multiset(Match(records, b))
    {
      MatchUnion(records, a, b);
    }
  }

  lemma ChunksAreServed(serve: ById, records: seq<Record>, ids: seq<string>, size: nat)
    requires DistinctIds(records) && ServesIds(serve, records, size)
    ensures ServesChunks(serve, wanted => Match(records, wanted), ids, size)
  {
    forall k: nat ensures serve(PageOf(ids, k, size), 0) == Ok(Match(records, Wanted(PageOf(ids, k, size)))) {
      ChunkFitsPage(records, ids, k, size);
      FirstPageIsAll(Match(records, Wanted(PageOf(ids, k, size))), size);
    }
  }

  /** Chunks requested with page 0 bring back every match of every id, once. */
  lemma ChunksBringAll(serve: ById, records: seq<Record>, ids: seq<string>, size: nat)
    requires size > 0 && DistinctIds(records) && Distinct(ids) && ServesIds(serve, records, size)
    ensures ChunksOk(serve, ids, size, false, TotalPages(|ids|, size))
    ensures multiset(JoinedChunks(serve, ids, size, false, TotalPages(|ids|, size)))
         == multiset(Match(records, Wanted(ids)))
  {
    TotalPagesIsCeiling(|ids|, size);
    ChunksAreServed(serve, records, ids, size);
    MatchIsAdditive(records);
    forall k: nat ensures AddsItsOwn(ids, k, size) { DistinctIdsAddTheirOwn(ids, k, size); }
    var find := wanted => Match(records, wanted);
    ChunksFind(serve, find, ids, size, TotalPages(|ids|, size));
    ChunksFindAll(find, ids, size, TotalPages(|ids|, size));
    assert ids[..|ids|] == ids;
  }

  lemma {:induction false} IndexedChunksStop(serve: ById, records: seq<Record>, ids: seq<string>, size: nat, n: nat)
    requires n > 0 && DistinctIds(records) && ServesIds(serve, records, size)
    ensures ChunksOk(serve, ids, size, true, n)
    ensures JoinedChunks(serve, ids, size, true, n) == Match(records, Wanted(PageOf(ids, 0, size)))
  {
    if n == 1 {
      ChunkFitsPage(records, ids, 0, size);
      FirstPageIsAll(Match(records, Wanted(PageOf(ids, 0, size))), size);
      assert JoinedChunks(serve, ids, size, true, 0) == [];
    } else {
      IndexedChunksStop(serve, records, ids, size, n - 1);
      ChunkFitsPage(records, ids, n - 1, size);
      LaterPageIsEmpty(Match(records, Wanted(PageOf(ids, n - 1, size))), n - 1, size);
    }
  }

  /**
  Chunks requested with their own number as the page bring back the matches of the first chunk only:
  every later chunk asks for a page beyond what its ids can fill. That is everything exactly when no
  id after the first chunk matches.
  */
  lemma IndexedChunksBringFirstOnly(serve: ById, records: seq<Record>, ids: seq<string>, size: nat)
    requires size > 0 && DistinctIds(records) && Distinct(ids) && ServesIds(serve, records, size) && ids != []
    ensures ChunksOk(serve, ids, size, true, TotalPages(|ids|, size))
    ensures var got := JoinedChunks(serve, ids, size, true, TotalPages(|ids|, size));
            && got == Match(records, Wanted(ids[..Min(size, |ids|)]))
            && (multiset(got) == multiset(Match(records, Wanted(ids))) <==>
                  Match(records, Wanted(ids[Min(size, |ids|)..])) == [])
  {
    TotalPagesIsCeiling(|ids|, size);
    IndexedChunksStop(serve, records, ids, size, TotalPages(|ids|, size));
    assert PageOf(ids, 0, size) == ids[..Min(size, |ids|)];
    var rest := Window(ids, Min(size, |ids|), |ids|);
    WantedGrows(ids, Min(size, |ids|), |ids|);
    MatchUnion(records, Wanted(ids[..Min(size, |ids|)]), Wanted(rest));
    assert ids[..|ids|] == ids && rest == ids[Min(size, |ids|)..];
    assert multiset(Match(records, Wanted(rest))) == multiset{} ==> Match(records, Wanted(rest)) == [];
  }

  /** The component endpoint, with its two stores and its shortcut, is such a server. */
  lemma ComponentServerServesIds(serve: ById, stored: seq<Record>, buffered: seq<Record>, size: nat)
    requires DistinctIds(stored + buffered)
    requires forall chunk: seq<string>, page: nat ::
      serve(chunk, page) == Ok(ServePage(stored, buffered, chunk, page, size))
    ensures ServesIds(serve, stored + buffered, size)
  {
    forall chunk: seq<string>, page: nat
      ensures serve(chunk, page) == Ok(PageOf(Match(stored + buffered, Wanted(chunk)), page, size))
    {
      ServePageIsPage(stored, buffered, chunk, page, size);
    }
  }

  const PAIR := [Record("a", "1"), Record("b", "2")]

  function PairServer(chunk: seq<string>, page: nat): Result<seq<Record>, string> {
    Ok(PageOf(Match(PAIR, Wanted(chunk)), page, 1))
  }

  lemma PairMatches(wanted: set<string>)
    requires "a" in wanted
    ensures Match(PAIR, wanted) == if "b" in wanted then PAIR else [PAIR[0]]
  {
    assert PAIR[..1] == [PAIR[0]] && PAIR[..1][..0] == [];
    assert Match(PAIR[..1], wanted) == [PAIR[0]];
  }

  /** Two ids in chunks of one: both are there, and only the first comes back. */
  lemma SecondChunkIsLost()
    ensures ServesIds(PairServer, PAIR, 1) && Match(PAIR, Wanted(["a", "b"])) == PAIR
    ensures ChunksOk(PairServer, ["a", "b"], 1, true, TotalPages(2, 1))
    ensures JoinedChunks(PairServer, ["a", "b"], 1, true, TotalPages(2, 1)) == [PAIR[0]]
  {
    var ids := ["a", "b"];
    PairIds(ids);
    IndexedChunksBringFirstOnly(PairServer, PAIR, ids, 1);
    PairMatches(Wanted(ids[..Min(1, |ids|)]));
    PairMatches(Wanted(ids));
  }

  lemma PairIds(ids: seq<string>)
    requires ids == ["a", "b"]
    ensures Distinct(ids) && Wanted(ids[..Min(1, |ids|)]) == {"a"} && Wanted(ids) == {"a", "b"}
  {
    assert ids[0] != ids[1] && ids[..Min(1, |ids|)] == ["a"];
  }
}
