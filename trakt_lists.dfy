/** The list-sync pipeline behind `getTraktWatchlist` and
    `getTraktRecommendations`: refuse a missing token, fetch one page of a
    Trakt list, project a tmdb id out of every raw item and resolve it to a
    metadata record, dropping items without an id and items whose
    resolution fails, in list order. The HTTP GET and `getMeta` are function
    parameters; the method returns, beside its result, the trace of the
    external calls it made. */
module TraktLists {

  import opened Wrappers
  import opened JsStrings

  /** The two Trakt lists. */
  datatype ListKind = Watchlist | Recommendations

  /** The shapes of a raw Trakt item the loop reads: an `ids` object with an
      optional `tmdb` number, nested under `movie` or `show` in the
      watchlist and at top level in recommendations. A missing object or a
      missing number is `None`; a `null` item is `NullItem`. */
  datatype Ids = Ids(tmdb: Option<int>)
  datatype Media = Media(ids: Option<Ids>)
  datatype RawItem = NullItem | Item(movie: Option<Media>, show: Option<Media>, ids: Option<Ids>)

  /** The request the GET is issued with: the list path, the type segment,
      the page size and the bearer token. */
  datatype ListRequest = ListRequest(path: string, segment: string, limit: nat, accessToken: string)

  /** What the GET does: the client rejects, or resolves with an optional `data`. */
  datatype GetOutcome = GetFailed(message: string) | GetOk(data: Option<seq<RawItem>>)

  /** An external call, in the order the pipeline makes them. */
  datatype Call = GetList(request: ListRequest) | GetMeta(contentType: string, language: string, tmdbId: int)

  /** The errors the two list functions throw. */
  datatype ListError = TokenMissing | FetchFailed(message: string) {
    /** The message of the thrown `Error`. */
    function Message(): string {
      if TokenMissing? then TokenMissingMessage else message
    }
  }

  /** The arguments that stay fixed during one call. */
  datatype Query = Query(kind: ListKind, contentType: string, language: string)

  /** `getMeta(type, language, tmdbId)`, already unwrapped to its `meta` record. */
  type Resolver<M> = (string, string, int) -> Result<M, string>

  const PageLimit: nat := 20
  const ApiBase: string := "https://api.trakt.tv/"
  const TokenMissingMessage: string := "Trakt access token not provided"

  /** `type === 'movie' ? 'movies' : 'shows'`. */
  function TypeSegment(contentType: string): (segment: string)
    ensures segment == "movies" <==> contentType == "movie"
    ensures segment == "shows" <==> contentType != "movie"
  {
    if contentType == "movie" then "movies" else "shows"
  }

  function ListPath(kind: ListKind): string {
    match kind
    case Watchlist => "sync/watchlist"
    case Recommendations => "recommendations"
  }

  /** The request both functions build; the page is not part of it. */
  function RequestFor(kind: ListKind, contentType: string, accessToken: string): (req: ListRequest)
    ensures req.limit == PageLimit && req.accessToken == accessToken
    ensures req.segment == TypeSegment(contentType)
  {
    ListRequest(ListPath(kind), TypeSegment(contentType), PageLimit, accessToken)
  }

  /** The decimal digits of `n`. */
  function Decimal(n: nat): string {
    var digit := ["0123456789"[n % 10]];
    if n < 10 then digit else Decimal(n / 10) + digit
  }

  function Url(req: ListRequest): string {
    ApiBase + req.path + "/" + req.segment + "?limit=" + Decimal(req.limit) + "&extended=full"
  }

  /** The URL of both endpoints asks for 20 items, whatever the page. */
  lemma RequestUrl(kind: ListKind, contentType: string, token: string)
    ensures Url(RequestFor(kind, contentType, token)) ==
      ApiBase + ListPath(kind) + "/" + TypeSegment(contentType) + "?limit=" + "20" + "&extended=full"
  {
    assert Decimal(20) == "20" by { assert Decimal(2) == "2"; }
  }

  /** `item.movie?.ids?.tmdb` for an optional `movie` (or `show`) object. */
  function MediaTmdb(m: Option<Media>): (id: Option<int>)
    ensures id.Some? ==> m.Some? && m.value.ids.Some? && m.value.ids.value.tmdb == id
    ensures m.Some? && m.value.ids.Some? ==> id == m.value.ids.value.tmdb
  {
    if m.Some? && m.value.ids.Some? then m.value.ids.value.tmdb else None
  }

  /** The id projection inside the per-item `try`: the watchlist reads the
      nested `movie` object for contentType `movie` and the nested `show` object
      otherwise, recommendations read the flat `ids`; reading a property of
      a `null` item throws. */
  function ProjectTmdb(kind: ListKind, contentType: string, item: RawItem): (r: Result<Option<int>, string>)
    ensures r.Failure? <==> item.NullItem?
    ensures item.Item? && kind == Watchlist && contentType == "movie" ==> r == Success(MediaTmdb(item.movie))
    ensures item.Item? && kind == Watchlist && contentType != "movie" ==> r == Success(MediaTmdb(item.show))
    ensures item.Item? && kind == Recommendations ==>
      r == Success(if item.ids.Some? then item.ids.value.tmdb else None)
  {
    match item
    case NullItem => Failure("TypeError: cannot read properties of null")
    case Item(movie, show, ids) =>
      match kind
      case Watchlist => Success(if contentType == "movie" then MediaTmdb(movie) else MediaTmdb(show))
      case Recommendations => Success(if ids.Some? then ids.value.tmdb else None)
  }

  /** `if (tmdbId)`: absent ids and the number 0 are falsy. */
  predicate IsTruthyId(id: Option<int>) {
    id.Some? && id.value != 0
  }

  /** The id the resolver is called with for `item`, if any. */
  function ResolvableId(q: Query, item: RawItem): (id: Option<int>)
    ensures id.Some? <==> ProjectTmdb(q.kind, q.contentType, item).Success? && IsTruthyId(ProjectTmdb(q.kind, q.contentType, item).value)
    ensures id.Some? ==> id.value != 0 && ProjectTmdb(q.kind, q.contentType, item) == Success(id)
  {
    match ProjectTmdb(q.kind, q.contentType, item)
    case Failure(_) => None
    case Success(id) => if IsTruthyId(id) then id else None
  }

  /** What one iteration of the loop does with an item. */
  datatype ItemStep<M> = Skipped | Dropped(error: string) | Kept(meta: M)

  function Step<M>(q: Query, item: RawItem, resolve: Resolver<M>): (r: ItemStep<M>)
    ensures r.Skipped? <==> ProjectTmdb(q.kind, q.contentType, item).Success? && ResolvableId(q, item).None?
    ensures r.Kept? ==>
      && ResolvableId(q, item).Some?
      && resolve(q.contentType, q.language, ResolvableId(q, item).value) == Success(r.meta)
    ensures ResolvableId(q, item).Some? && resolve(q.contentType, q.language, ResolvableId(q, item).value).Success? ==>
      r == Kept(resolve(q.contentType, q.language, ResolvableId(q, item).value).value)
    ensures r.Dropped? <==>
      || ProjectTmdb(q.kind, q.contentType, item).Failure?
      || (ResolvableId(q, item).Some? && resolve(q.contentType, q.language, ResolvableId(q, item).value).Failure?)
  {
    match ProjectTmdb(q.kind, q.contentType, item)
    case Failure(e) => Dropped(e)
    case Success(id) =>
      if !IsTruthyId(id) then Skipped
      else match resolve(q.contentType, q.language, id.value)
        case Failure(e) => Dropped(e)
        case Success(meta) => Kept(meta)
  }

  function KeptMeta<M>(s: ItemStep<M>): seq<M> {
    if s.Kept? then [s.meta] else []
  }

  /** The `metas` array the loop builds from `items`. */
  function Metas<M>(q: Query, items: seq<RawItem>, resolve: Resolver<M>): (metas: seq<M>)
    ensures |metas| <= |items|
  {
    if |items| == 0 then [] else KeptMeta(Step(q, items[0], resolve)) + Metas(q, items[1..], resolve)
  }

  /** The `getMeta` calls the loop makes for `items`, in order. */
  function MetaCalls(q: Query, items: seq<RawItem>): (calls: seq<Call>)
    ensures |calls| <= |items|
    ensures forall j :: 0 <= j < |calls| ==> calls[j].GetMeta?
  {
    if |items| == 0 then []
    else
      var id := ResolvableId(q, items[0]);
      (if id.Some? then [GetMeta(q.contentType, q.language, id.value)] else []) + MetaCalls(q, items[1..])
  }

  /** `response.data || []`. The list endpoints answer with an array, which
      is always truthy, so `None` stands for every absent or falsy `data`. */
  function ItemsOf(data: Option<seq<RawItem>>): seq<RawItem> {
    if data.Some? then data.value else []
  }

  /** The outcome of one list call: the thrown error, or `{metas}`. */
  function SyncResult<M>(q: Query, accessToken: Option<string>, fetch: ListRequest -> GetOutcome,
                         resolve: Resolver<M>): (r: Result<seq<M>, ListError>)
    ensures r == Failure(TokenMissing) <==> !IsTruthy(accessToken)
  {
    if !IsTruthy(accessToken) then Failure(TokenMissing)
    else match fetch(RequestFor(q.kind, q.contentType, accessToken.value))
      case GetFailed(message) => Failure(FetchFailed(message))
      case GetOk(data) => Success(Metas(q, ItemsOf(data), resolve))
  }

  /** The external calls of one list call, in order. */
  function SyncTrace(q: Query, accessToken: Option<string>, fetch: ListRequest -> GetOutcome): (calls: seq<Call>)
    ensures calls == [] <==> !IsTruthy(accessToken)
    ensures calls != [] ==> calls[0] == GetList(RequestFor(q.kind, q.contentType, accessToken.value))
    ensures forall j :: 1 <= j < |calls| ==> calls[j].GetMeta?
  {
    if !IsTruthy(accessToken) then []
    else
      var req := RequestFor(q.kind, q.contentType, accessToken.value);
      [GetList(req)] + match fetch(req)
        case GetFailed(_) => []
        case GetOk(data) => MetaCalls(q, ItemsOf(data))
  }

  lemma {:induction false} MetasAppend<M>(q: Query, a: seq<RawItem>, b: seq<RawItem>, resolve: Resolver<M>)
    ensures Metas(q, a + b, resolve) == Metas(q, a, resolve) + Metas(q, b, resolve)
  {
    if |a| > 0 {
      assert (a + b)[1..] == a[1..] + b;
      MetasAppend(q, a[1..], b, resolve);
    } else {
      assert a + b == b;
    }
  }

  lemma {:induction false} MetaCallsAppend(q: Query, a: seq<RawItem>, b: seq<RawItem>)
    ensures MetaCalls(q, a + b) == MetaCalls(q, a) + MetaCalls(q, b)
  {
    if |a| > 0 {
      assert (a + b)[1..] == a[1..] + b;
      MetaCallsAppend(q, a[1..], b);
    } else {
      assert a + b == b;
    }
  }

  /** A list of one item: its record, if kept, and its `getMeta` call, if any. */
  lemma SingleItem<M>(q: Query, item: RawItem, resolve: Resolver<M>)
    ensures Metas(q, [item], resolve) == KeptMeta(Step(q, item, resolve))
    ensures MetaCalls(q, [item]) ==
      if ResolvableId(q, item).Some? then [GetMeta(q.contentType, q.language, ResolvableId(q, item).value)] else []
  {
    assert [item][1..] == [];
  }

  /** The `for...of` loop of both list functions: each item's tmdb id is
      projected, items without a truthy id are skipped, the others are
      resolved, and a failure drops only that item. The records and the
      `getMeta` calls are exactly `Metas` and `MetaCalls` of the items. */
  method ResolveItems<M>(q: Query, items: seq<RawItem>, resolve: Resolver<M>)
    returns (metas: seq<M>, calls: seq<Call>)
    ensures metas == Metas(q, items, resolve)
    ensures calls == MetaCalls(q, items)
  {
    metas, calls := [], [];
    var i := 0;
    while i < |items|
      invariant 0 <= i <= |items|
      invariant metas == Metas(q, items[..i], resolve)
      invariant calls == MetaCalls(q, items[..i])
    {
      var item := items[i];
      var tmdbId := ProjectTmdb(q.kind, q.contentType, item);
      if tmdbId.Success? && IsTruthyId(tmdbId.value) {
        calls := calls + [GetMeta(q.contentType, q.language, tmdbId.value.value)];
        var meta := resolve(q.contentType, q.language, tmdbId.value.value);
        if meta.Success? {
          metas := metas + [meta.value];
        }
      }
      assert items[..i + 1] == items[..i] + [item];
      SingleItem(q, item, resolve);
      MetasAppend(q, items[..i], [item], resolve);
      MetaCallsAppend(q, items[..i], [item]);
      i := i + 1;
    }
    assert items[..i] == items;
  }

  /** The shared body of both list functions: the token guard, the GET and
      the per-item try/skip loop. A missing token throws before any call is
      made; a failed GET is rethrown after that one call; otherwise the
      result is `{metas}`, and `getMeta` has been called exactly for the
      items with a truthy id. The page number plays no part. */
  method FetchList<M>(q: Query, page: int, accessToken: Option<string>,
                      fetch: ListRequest -> GetOutcome, resolve: Resolver<M>)
    returns (result: Result<seq<M>, ListError>, trace: seq<Call>)
    ensures !IsTruthy(accessToken) ==> result == Failure(TokenMissing) && trace == []
    ensures IsTruthy(accessToken) ==> |trace| >= 1 && trace[0] == GetList(RequestFor(q.kind, q.contentType, accessToken.value))
    ensures result == SyncResult(q, accessToken, fetch, resolve)
    ensures trace == SyncTrace(q, accessToken, fetch)
  {
    if !IsTruthy(accessToken) {
      return Failure(TokenMissing), [];
    }
    var typeParam := TypeSegment(q.contentType);
    var limit := PageLimit;
    var request := ListRequest(ListPath(q.kind), typeParam, limit, accessToken.value);
    trace := [GetList(request)];
    var response := fetch(request);
    if response.GetFailed? {
      return Failure(FetchFailed(response.message)), trace;
    }
    var metas, calls := ResolveItems(q, ItemsOf(response.data), resolve);
    return Success(metas), trace + calls;
  }

  /** `getTraktWatchlist(type, language, page, genre, accessToken)`. */
  method GetTraktWatchlist<M>(contentType: string, language: string, page: int, genre: Option<string>,
                              accessToken: Option<string>, fetch: ListRequest -> GetOutcome, resolve: Resolver<M>)
    returns (result: Result<seq<M>, ListError>, trace: seq<Call>)
    ensures result == SyncResult(Query(Watchlist, contentType, language), accessToken, fetch, resolve)
    ensures trace == SyncTrace(Query(Watchlist, contentType, language), accessToken, fetch)
  {
    result, trace := FetchList(Query(Watchlist, contentType, language), page, accessToken, fetch, resolve);
  }

  /** `getTraktRecommendations(type, language, page, genre, accessToken)`. */
  method GetTraktRecommendations<M>(contentType: string, language: string, page: int, genre: Option<string>,
                                    accessToken: Option<string>, fetch: ListRequest -> GetOutcome, resolve: Resolver<M>)
    returns (result: Result<seq<M>, ListError>, trace: seq<Call>)
    ensures result == SyncResult(Query(Recommendations, contentType, language), accessToken, fetch, resolve)
    ensures trace == SyncTrace(Query(Recommendations, contentType, language), accessToken, fetch)
  {
    result, trace := FetchList(Query(Recommendations, contentType, language), page, accessToken, fetch, resolve);
  }

  /** An item without a truthy id (or a `null` item) leaves no trace: it adds
      no record and `getMeta` is not called for it. */
  lemma SkippedItemIsInvisible<M>(q: Query, before: seq<RawItem>, item: RawItem, after: seq<RawItem>,
                                  resolve: Resolver<M>)
    requires ResolvableId(q, item).None?
    ensures Metas(q, before + [item] + after, resolve) == Metas(q, before + after, resolve)
    ensures MetaCalls(q, before + [item] + after) == MetaCalls(q, before + after)
  {
    SkippedSingleItem(q, item, resolve);
    DropItemMetas(q, before, item, after, resolve);
    DropItemCalls(q, before, item, after);
  }

  /** The one-item case of `SkippedItemIsInvisible`. */
  lemma SkippedSingleItem<M>(q: Query, item: RawItem, resolve: Resolver<M>)
    requires ResolvableId(q, item).None?
    ensures Metas(q, [item], resolve) == []
    ensures MetaCalls(q, [item]) == []
  {
    assert !Step(q, item, resolve).Kept?;
    assert [item][1..] == [];
  }

  /** An item that adds no record can be taken out of the list without
      changing the records. */
  lemma DropItemMetas<M>(q: Query, before: seq<RawItem>, item: RawItem, after: seq<RawItem>, resolve: Resolver<M>)
    requires Metas(q, [item], resolve) == []
    ensures Metas(q, before + [item] + after, resolve) == Metas(q, before + after, resolve)
  {
    IsolatedMetas(q, before, item, after, resolve);
    MetasAppend(q, before, after, resolve);
  }

  /** An item that makes no call can be taken out of the list without
      changing the calls. */
  lemma DropItemCalls(q: Query, before: seq<RawItem>, item: RawItem, after: seq<RawItem>)
    requires MetaCalls(q, [item]) == []
    ensures MetaCalls(q, before + [item] + after) == MetaCalls(q, before + after)
  {
    IsolatedCalls(q, before, item, after);
    MetaCallsAppend(q, before, after);
  }

  /** The records of `before + [item] + after` are those of the three parts. */
  lemma IsolatedMetas<M>(q: Query, before: seq<RawItem>, item: RawItem, after: seq<RawItem>, resolve: Resolver<M>)
    ensures Metas(q, before + [item] + after, resolve) ==
      Metas(q, before, resolve) + Metas(q, [item], resolve) + Metas(q, after, resolve)
  {
    MetasAppend(q, before + [item], after, resolve);
    MetasAppend(q, before, [item], resolve);
  }

  /** The `getMeta` calls of `before + [item] + after` are those of the three parts. */
  lemma IsolatedCalls(q: Query, before: seq<RawItem>, item: RawItem, after: seq<RawItem>)
    ensures MetaCalls(q, before + [item] + after) == MetaCalls(q, before) + MetaCalls(q, [item]) + MetaCalls(q, after)
  {
    MetaCallsAppend(q, before + [item], after);
    MetaCallsAppend(q, before, [item]);
  }

  /** The one-item case of `FailedItemIsIsolated`. */
  lemma FailedSingleItem<M>(q: Query, item: RawItem, resolve: Resolver<M>)
    requires ResolvableId(q, item).Some?
    requires resolve(q.contentType, q.language, ResolvableId(q, item).value).Failure?
    ensures Metas(q, [item], resolve) == []
    ensures MetaCalls(q, [item]) == [GetMeta(q.contentType, q.language, ResolvableId(q, item).value)]
  {
    assert Step(q, item, resolve).Dropped?;
    assert [item][1..] == [];
  }

  /** A resolver failure on one item drops that item's record and nothing
      else: every later item is still resolved, and the records are those
      of the list without the failing item. */
  lemma FailedItemIsIsolated<M>(q: Query, before: seq<RawItem>, item: RawItem, after: seq<RawItem>,
                                resolve: Resolver<M>)
    requires ResolvableId(q, item).Some?
    requires resolve(q.contentType, q.language, ResolvableId(q, item).value).Failure?
    ensures Metas(q, before + [item] + after, resolve) == Metas(q, before + after, resolve)
    ensures MetaCalls(q, before + [item] + after) ==
      MetaCalls(q, before) + [GetMeta(q.contentType, q.language, ResolvableId(q, item).value)] + MetaCalls(q, after)
  {
    FailedSingleItem(q, item, resolve);
    DropItemMetas(q, before, item, after, resolve);
    IsolatedCalls(q, before, item, after);
  }

  /** At the level of a whole call: when the item at `k` fails to resolve,
      the call still returns normally, with the records of the other items. */
  lemma ItemFailureKeepsTheRest<M>(q: Query, accessToken: Option<string>, fetch: ListRequest -> GetOutcome,
                                   resolve: Resolver<M>, items: seq<RawItem>, k: nat)
    requires IsTruthy(accessToken)
    requires fetch(RequestFor(q.kind, q.contentType, accessToken.value)) == GetOk(Some(items))
    requires k < |items| && Step(q, items[k], resolve).Dropped?
    ensures SyncResult(q, accessToken, fetch, resolve) == Success(Metas(q, items[..k] + items[k + 1..], resolve))
  {
    assert items == items[..k] + [items[k]] + items[k + 1..];
    if ResolvableId(q, items[k]).None? {
      SkippedItemIsInvisible(q, items[..k], items[k], items[k + 1..], resolve);
    } else {
      FailedItemIsIsolated(q, items[..k], items[k], items[k + 1..], resolve);
    }
  }

  /** Every index of `idx` moved one place to the right. */
  function Shifted(idx: seq<nat>): (r: seq<nat>)
    ensures |r| == |idx| && forall j :: 0 <= j < |idx| ==> r[j] == idx[j] + 1
  {
    seq(|idx|, j requires 0 <= j < |idx| => idx[j] + 1)
  }

  /** The indices of the items whose record is kept. */
  function KeptIndices<M>(q: Query, items: seq<RawItem>, resolve: Resolver<M>): seq<nat> {
    if |items| == 0 then []
    else (if Step(q, items[0], resolve).Kept? then [0] else []) + Shifted(KeptIndices(q, items[1..], resolve))
  }

  /** One kept index per record. */
  lemma {:induction false} KeptIndicesLength<M>(q: Query, items: seq<RawItem>, resolve: Resolver<M>)
    ensures |KeptIndices(q, items, resolve)| == |Metas(q, items, resolve)|
  {
    if |items| > 0 {
      KeptIndicesLength(q, items[1..], resolve);
    }
  }

  /** Indices below `n` in strictly increasing order. */
  predicate IncreasingBelow(idx: seq<nat>, n: nat) {
    && (forall j :: 0 <= j < |idx| ==> idx[j] < n)
    && (forall j, j' :: 0 <= j < j' < |idx| ==> idx[j] < idx[j'])
  }

  /** Shifting increasing indices and putting an optional 0 in front keeps
      them increasing, one bound higher. */
  lemma ShiftedIncreasing(pre: seq<nat>, rest: seq<nat>, n: nat)
    requires pre == [] || pre == [0]
    requires IncreasingBelow(rest, n)
    ensures IncreasingBelow(pre + Shifted(rest), n + 1)
  {
    var idx := pre + Shifted(rest);
    forall j | 0 <= j < |idx| ensures idx[j] < n + 1 {
      if j >= |pre| {
        assert idx[j] == rest[j - |pre|] + 1;
      }
    }
    forall j, j' | 0 <= j < j' < |idx| ensures idx[j] < idx[j'] {
      assert idx[j'] == rest[j' - |pre|] + 1;
      if j >= |pre| {
        assert idx[j] == rest[j - |pre|] + 1;
      }
    }
  }

  /** The kept indices are item positions, in strictly increasing order. */
  lemma {:induction false} KeptIndicesIncrease<M>(q: Query, items: seq<RawItem>, resolve: Resolver<M>)
    ensures IncreasingBelow(KeptIndices(q, items, resolve), |items|)
  {
    if |items| > 0 {
      KeptIndicesIncrease(q, items[1..], resolve);
      var pre: seq<nat> := if Step(q, items[0], resolve).Kept? then [0] else [];
      ShiftedIncreasing(pre, KeptIndices(q, items[1..], resolve), |items| - 1);
    }
  }

  /** The item at the `j`-th kept index has the `j`-th record. */
  lemma {:induction false} KeptIndicesRecords<M>(q: Query, items: seq<RawItem>, resolve: Resolver<M>)
    ensures var idx, metas := KeptIndices(q, items, resolve), Metas(q, items, resolve);
      forall j :: 0 <= j < |idx| && j < |metas| ==> idx[j] < |items| && Step(q, items[idx[j]], resolve) == Kept(metas[j])
  {
    if |items| > 0 {
      var tail := items[1..];
      var rest, restMetas := KeptIndices(q, tail, resolve), Metas(q, tail, resolve);
      KeptIndicesRecords(q, tail, resolve);
      KeptIndicesIncrease(q, tail, resolve);
      KeptIndicesLength(q, tail, resolve);
      var shifted := Shifted(rest);
      var head := Step(q, items[0], resolve);
      var pre: seq<nat> := if head.Kept? then [0] else [];
      var idx, metas := KeptIndices(q, items, resolve), Metas(q, items, resolve);
      assert idx == pre + shifted;
      assert metas == KeptMeta(head) + restMetas;
      forall j | 0 <= j < |idx| && j < |metas|
        ensures idx[j] < |items| && Step(q, items[idx[j]], resolve) == Kept(metas[j])
      {
        if j >= |pre| {
          var k := j - |pre|;
          assert idx[j] == rest[k] + 1 && metas[j] == restMetas[k];
          assert items[idx[j]] == tail[rest[k]];
        }
      }
    }
  }

  /** An index found in `rest` is found, shifted, in `pre + Shifted(rest)`. */
  lemma ShiftedContains(pre: seq<nat>, rest: seq<nat>, i: nat)
    requires i in rest
    ensures i + 1 in pre + Shifted(rest)
  {
    var j :| 0 <= j < |rest| && rest[j] == i;
    assert (pre + Shifted(rest))[|pre| + j] == i + 1;
  }

  /** Every item that has a record is at a kept index. */
  lemma {:induction false} KeptIndicesComplete<M>(q: Query, items: seq<RawItem>, resolve: Resolver<M>)
    ensures forall i :: 0 <= i < |items| && Step(q, items[i], resolve).Kept? ==> i in KeptIndices(q, items, resolve)
  {
    if |items| > 0 {
      var tail := items[1..];
      var rest := KeptIndices(q, tail, resolve);
      KeptIndicesComplete(q, tail, resolve);
      var pre: seq<nat> := if Step(q, items[0], resolve).Kept? then [0] else [];
      var idx := KeptIndices(q, items, resolve);
      assert idx == pre + Shifted(rest);
      forall i | 0 <= i < |items| && Step(q, items[i], resolve).Kept? ensures i in idx {
        if i > 0 {
          assert items[i] == tail[i - 1];
          ShiftedContains(pre, rest, i - 1);
        } else {
          assert idx[0] == 0;
        }
      }
    }
  }

  /** `metas` is an order-preserving subsequence of the items' records:
      the kept indices increase strictly, each names an item whose record is
      the corresponding entry of `metas`, and every item with a record is
      among them. */
  lemma MetasIsOrderedSubsequence<M>(q: Query, items: seq<RawItem>, resolve: Resolver<M>)
    ensures var idx, metas := KeptIndices(q, items, resolve), Metas(q, items, resolve);
      && |idx| == |metas|
      && (forall j :: 0 <= j < |idx| ==> idx[j] < |items| && Step(q, items[idx[j]], resolve) == Kept(metas[j]))
      && (forall j, j' :: 0 <= j < j' < |idx| ==> idx[j] < idx[j'])
      && (forall i :: 0 <= i < |items| && Step(q, items[i], resolve).Kept? ==> i in idx)
  {
    KeptIndicesLength(q, items, resolve);
    KeptIndicesIncrease(q, items, resolve);
    KeptIndicesRecords(q, items, resolve);
    KeptIndicesComplete(q, items, resolve);
  }

  /** A failed GET is rethrown: the call yields the fetch error and no
      record, after the one list request and no `getMeta` call. */
  lemma FetchFailureIsRethrown<M>(q: Query, accessToken: Option<string>, fetch: ListRequest -> GetOutcome,
                                  resolve: Resolver<M>, message: string)
    requires IsTruthy(accessToken)
    requires fetch(RequestFor(q.kind, q.contentType, accessToken.value)) == GetFailed(message)
    ensures SyncResult(q, accessToken, fetch, resolve) == Failure(FetchFailed(message))
    ensures SyncTrace(q, accessToken, fetch) == [GetList(RequestFor(q.kind, q.contentType, accessToken.value))]
  {
  }

  /** A response without `data` yields `{metas: []}`. */
  lemma NoDataMeansNoMetas<M>(q: Query, accessToken: Option<string>, fetch: ListRequest -> GetOutcome,
                              resolve: Resolver<M>)
    requires IsTruthy(accessToken)
    requires fetch(RequestFor(q.kind, q.contentType, accessToken.value)) == GetOk(None)
    ensures SyncResult(q, accessToken, fetch, resolve) == Success([])
    ensures SyncTrace(q, accessToken, fetch) == [GetList(RequestFor(q.kind, q.contentType, accessToken.value))]
  {
  }

  /** The worked example: a movie watchlist of three items, the middle one
      without a tmdb id, with 550 resolving to `a` and 551 to `b`, gives
      `[a, b]`, and `getMeta` is called for 550 and 551 only. */
  lemma WatchlistExample<M>(language: string, a: M, b: M, resolve: Resolver<M>)
    requires resolve("movie", language, 550) == Success(a)
    requires resolve("movie", language, 551) == Success(b)
    ensures var q := Query(Watchlist, "movie", language);
      var items := [
        Item(Some(Media(Some(Ids(Some(550))))), None, None),
        Item(Some(Media(Some(Ids(None)))), None, None),
        Item(Some(Media(Some(Ids(Some(551))))), None, None)];
      && Metas(q, items, resolve) == [a, b]
      && MetaCalls(q, items) == [GetMeta("movie", language, 550), GetMeta("movie", language, 551)]
  {
    var q := Query(Watchlist, "movie", language);
    var i0, i1, i2 :=
      Item(Some(Media(Some(Ids(Some(550))))), None, None),
      Item(Some(Media(Some(Ids(None)))), None, None),
      Item(Some(Media(Some(Ids(Some(551))))), None, None);
    var items := [i0, i1, i2];
    assert items[1..] == [i1, i2] && [i1, i2][1..] == [i2] && [i2][1..] == [];
    assert Step(q, i0, resolve) == Kept(a);
    assert Step(q, i1, resolve) == Skipped;
    assert Step(q, i2, resolve) == Kept(b);
    assert Metas(q, [i2], resolve) == [b];
    assert Metas(q, [i1, i2], resolve) == [b];
    assert ResolvableId(q, i0) == Some(550) && ResolvableId(q, i1) == None && ResolvableId(q, i2) == Some(551);
    assert MetaCalls(q, [i2]) == [GetMeta("movie", language, 551)];
    assert MetaCalls(q, [i1, i2]) == [GetMeta("movie", language, 551)];
  }
}
