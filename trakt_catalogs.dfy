/** The configuration page's Trakt integration: the updater that merges the
    four Trakt catalogs into the user's catalog list when an account is
    connected, the filter that removes them on disconnect, and the checks an
    authorization code and a token response must pass before anything is
    stored. The React state setters become a `Connection` value that the
    handlers map to a new value; the `fetch` of the token endpoint is a
    function parameter. */
module TraktCatalogs {

  import opened Wrappers
  import opened JsStrings

  /** One entry of the catalog list. `extra` stands for every other field an
      entry may carry; the updaters copy it untouched. */
  datatype Catalog = Catalog(
    id: string,
    catalogType: string,
    name: string,
    enabled: bool,
    showInHome: bool,
    extra: map<string, string>)

  /** The identity of an entry: its id and its type. */
  function Key(c: Catalog): (string, string) {
    (c.id, c.catalogType)
  }

  /** The string key `${c.id}-${c.type}` the merge builds its `Set` from. */
  function StringKey(c: Catalog): string {
    c.id + "-" + c.catalogType
  }

  const TraktPrefix: string := "trakt."

  /** `traktCatalogsToAdd`, in declaration order. */
  const TraktCatalogsToAdd: seq<Catalog> := [
    Catalog("trakt.watchlist", "movie", "Trakt Watchlist", true, true, map[]),
    Catalog("trakt.watchlist", "series", "Trakt Watchlist", true, true, map[]),
    Catalog("trakt.recommendations", "movie", "Trakt Recommendations", true, true, map[]),
    Catalog("trakt.recommendations", "series", "Trakt Recommendations", true, true, map[])]

  /** The keys of the four Trakt catalogs. */
  const TraktKeys: set<(string, string)> := {
    ("trakt.watchlist", "movie"), ("trakt.watchlist", "series"),
    ("trakt.recommendations", "movie"), ("trakt.recommendations", "series")}

  /** The four Trakt catalogs are enabled, shown on the home page, and
      their ids are in the `trakt.` namespace. */
  lemma TraktCatalogsEnabled()
    ensures forall tc :: tc in TraktCatalogsToAdd ==>
      tc.enabled && tc.showInHome && StartsWith(tc.id, TraktPrefix)
  {
    var w, r := "trakt.watchlist", "trakt.recommendations";
    assert w[..|TraktPrefix|] == TraktPrefix;
    assert r[..|TraktPrefix|] == TraktPrefix;
  }

  /** The Trakt keys are exactly the keys of the four Trakt catalogs, one
      catalog per key. */
  lemma TraktKeysOfCatalogs()
    ensures |TraktCatalogsToAdd| == 4
    ensures TraktKeys == set tc | tc in TraktCatalogsToAdd :: Key(tc)
    ensures forall i, j :: 0 <= i < j < |TraktCatalogsToAdd| ==> Key(TraktCatalogsToAdd[i]) != Key(TraktCatalogsToAdd[j])
  {
    var tcs := TraktCatalogsToAdd;
    assert Key(tcs[0]) == ("trakt.watchlist", "movie");
    assert Key(tcs[1]) == ("trakt.watchlist", "series");
    assert Key(tcs[2]) == ("trakt.recommendations", "movie");
    assert Key(tcs[3]) == ("trakt.recommendations", "series");
    assert "trakt.watchlist" != "trakt.recommendations" by { assert "trakt.watchlist"[6] != "trakt.recommendations"[6]; }
    assert "movie" != "series" by { assert "movie"[0] != "series"[0]; }
  }

  /** Neither the ids nor the types of the Trakt catalogs contain `-`. */
  lemma TraktCatalogsDashFree()
    ensures forall tc :: tc in TraktCatalogsToAdd ==> '-' !in tc.id && '-' !in tc.catalogType
  {
    assert '-' !in "trakt.watchlist";
    assert '-' !in "trakt.recommendations";
    assert '-' !in "movie" && '-' !in "series";
  }

  /** Joining two dash-free strings with `-` can be undone: the only dash
      of the result is the joining one. */
  lemma DashJoinInjective(x: string, y: string, a: string, b: string)
    requires '-' !in a && '-' !in b
    requires x + "-" + y == a + "-" + b
    ensures x == a && y == b
  {
    var s := a + "-" + b;
    assert s[|x|] == '-' by { assert (x + "-" + y)[|x|] == '-'; }
    assert forall k :: 0 <= k < |a| ==> s[k] == a[k];
    assert forall k :: |a| < k < |s| ==> s[k] == b[k - |a| - 1];
    assert |x| == |a|;
    assert x == (x + "-" + y)[..|x|] == s[..|a|] == a;
    assert y == (x + "-" + y)[|x| + 1..] == s[|a| + 1..] == b;
  }

  /** For a Trakt catalog, comparing string keys is comparing `(id, type)`
      pairs: the ids and types of the Trakt catalogs contain no `-`. */
  lemma StringKeyMatchesKey(c: Catalog, tc: Catalog)
    requires tc in TraktCatalogsToAdd
    ensures StringKey(c) == StringKey(tc) <==> Key(c) == Key(tc)
  {
    TraktCatalogsDashFree();
    if StringKey(c) == StringKey(tc) {
      DashJoinInjective(c.id, c.catalogType, tc.id, tc.catalogType);
    }
  }

  /** `traktCatalogsToAdd.find((tc) => tc.id === c.id && tc.type === c.type)`
      over a list of candidates. */
  function FindByKey(tcs: seq<Catalog>, c: Catalog): (r: Option<Catalog>)
    ensures r.Some? <==> exists i :: 0 <= i < |tcs| && Key(tcs[i]) == Key(c)
    ensures r.Some? ==> r.value in tcs && Key(r.value) == Key(c)
  {
    if |tcs| == 0 then None
    else if Key(tcs[0]) == Key(c) then Some(tcs[0])
    else
      var r := FindByKey(tcs[1..], c);
      assert forall i :: 1 <= i < |tcs| ==> tcs[i] == tcs[1..][i - 1];
      r
  }

  /** The `find` finds a Trakt catalog exactly for the four Trakt keys. */
  lemma FindTraktCatalog(c: Catalog)
    ensures FindByKey(TraktCatalogsToAdd, c).Some? <==> Key(c) in TraktKeys
  {
    TraktKeysOfCatalogs();
  }

  /** The callback of `prev.map` at lines 92-100. */
  function UpdateEntry(c: Catalog): (r: Catalog)
    ensures Key(r) == Key(c) && r.name == c.name && r.extra == c.extra
    ensures r != c ==> r.enabled && r.showInHome
  {
    if FindByKey(TraktCatalogsToAdd, c).Some? then c.(enabled := true, showInHome := true) else c
  }

  /** `updatedCatalogs`: every entry passed through `UpdateEntry`. */
  function UpdatedCatalogs(prev: seq<Catalog>): (r: seq<Catalog>)
    ensures |r| == |prev|
    ensures forall i :: 0 <= i < |prev| ==> r[i] == UpdateEntry(prev[i])
  {
    if |prev| == 0 then [] else [UpdateEntry(prev[0])] + UpdatedCatalogs(prev[1..])
  }

  /** `existingIds`: the string keys of the entries. */
  function ExistingIds(prev: seq<Catalog>): (ids: set<string>)
    ensures forall i :: 0 <= i < |prev| ==> StringKey(prev[i]) in ids
  {
    set c | c in prev :: StringKey(c)
  }

  /** `newCatalogs`: the candidates whose string key is not among `existing`,
      in their own order. */
  function NewCatalogs(tcs: seq<Catalog>, existing: set<string>): (r: seq<Catalog>)
    ensures |r| <= |tcs|
    ensures forall c :: c in r <==> c in tcs && StringKey(c) !in existing
  {
    if |tcs| == 0 then []
    else (if StringKey(tcs[0]) in existing then [] else [tcs[0]]) + NewCatalogs(tcs[1..], existing)
  }

  /** The updater passed to `setCatalogs` when an account is connected. */
  function MergeTraktCatalogs(prev: seq<Catalog>): (r: seq<Catalog>)
    ensures |prev| <= |r| <= |prev| + |TraktCatalogsToAdd|
  {
    UpdatedCatalogs(prev) + NewCatalogs(TraktCatalogsToAdd, ExistingIds(prev))
  }

  /** The entry of `cs` with key `k` is somewhere in `cs`. */
  predicate HasKey(cs: seq<Catalog>, k: (string, string)) {
    exists i :: 0 <= i < |cs| && Key(cs[i]) == k
  }

  /** A Trakt catalog's string key is among the existing ids exactly when
      some existing entry has its `(id, type)`. */
  lemma ExistingIdsOfTraktCatalog(prev: seq<Catalog>, tc: Catalog)
    requires tc in TraktCatalogsToAdd
    ensures StringKey(tc) in ExistingIds(prev) <==> HasKey(prev, Key(tc))
  {
    if StringKey(tc) in ExistingIds(prev) {
      var c :| c in prev && StringKey(c) == StringKey(tc);
      StringKeyMatchesKey(c, tc);
      var i :| 0 <= i < |prev| && prev[i] == c;
    }
    if HasKey(prev, Key(tc)) {
      var i :| 0 <= i < |prev| && Key(prev[i]) == Key(tc);
      StringKeyMatchesKey(prev[i], tc);
      assert prev[i] in prev;
    }
  }

  /** When no candidate's key is among `existing`, all are kept. */
  lemma {:induction false} NewCatalogsAllAbsent(tcs: seq<Catalog>, existing: set<string>)
    requires forall c :: c in tcs ==> StringKey(c) !in existing
    ensures NewCatalogs(tcs, existing) == tcs
  {
    if |tcs| > 0 {
      NewCatalogsAllAbsent(tcs[1..], existing);
    }
  }

  /** When every candidate's key is among `existing`, none is kept. */
  lemma {:induction false} NewCatalogsAllPresent(tcs: seq<Catalog>, existing: set<string>)
    requires forall c :: c in tcs ==> StringKey(c) in existing
    ensures NewCatalogs(tcs, existing) == []
  {
    if |tcs| > 0 {
      NewCatalogsAllPresent(tcs[1..], existing);
    }
  }

  /** The candidates kept by a filter with no duplicates number as many as
      the set of their keys. */
  lemma {:induction false} NewCatalogsKeys(tcs: seq<Catalog>, existing: set<string>)
    requires forall i, j :: 0 <= i < j < |tcs| ==> Key(tcs[i]) != Key(tcs[j])
    ensures var r := NewCatalogs(tcs, existing);
      |r| == |set c | c in r :: Key(c)|
  {
    if |tcs| > 0 {
      var tail := NewCatalogs(tcs[1..], existing);
      NewCatalogsKeys(tcs[1..], existing);
      var r := NewCatalogs(tcs, existing);
      var keys := set c | c in tail :: Key(c);
      if StringKey(tcs[0]) !in existing {
        assert r == [tcs[0]] + tail;
        forall c | c in tail ensures Key(c) != Key(tcs[0]) {
          var j :| 0 <= j < |tcs[1..]| && tcs[1..][j] == c;
          assert tcs[j + 1] == c;
        }
        assert Key(tcs[0]) !in keys;
        assert (set c | c in r :: Key(c)) == {Key(tcs[0])} + keys;
      } else {
        assert r == tail;
      }
    }
  }

  /** The catalogs the merge appends to `prev`: `newCatalogs`. */
  function MissingTraktCatalogs(prev: seq<Catalog>): (r: seq<Catalog>)
    ensures |r| <= |TraktCatalogsToAdd|
    ensures forall c :: c in r ==> c in TraktCatalogsToAdd
  {
    NewCatalogs(TraktCatalogsToAdd, ExistingIds(prev))
  }

  /** The `map` callback updates exactly the entries with a Trakt key, and
      only their `enabled` and `showInHome` fields. */
  lemma UpdateEntryByKey(c: Catalog)
    ensures UpdateEntry(c) == if Key(c) in TraktKeys then c.(enabled := true, showInHome := true) else c
  {
    FindTraktCatalog(c);
  }

  /** The merge appends a Trakt catalog exactly when `prev` lacks its key. */
  lemma MissingTraktCatalogsAbsent(prev: seq<Catalog>)
    ensures forall c :: c in MissingTraktCatalogs(prev) <==> c in TraktCatalogsToAdd && !HasKey(prev, Key(c))
  {
    forall c ensures c in MissingTraktCatalogs(prev) <==> c in TraktCatalogsToAdd && !HasKey(prev, Key(c)) {
      if c in TraktCatalogsToAdd {
        ExistingIdsOfTraktCatalog(prev, c);
      }
    }
  }

  /** The merge appends one catalog per Trakt key that `prev` lacks. */
  lemma MissingTraktCatalogsCount(prev: seq<Catalog>)
    ensures |MissingTraktCatalogs(prev)| == |set k | k in TraktKeys && !HasKey(prev, k)|
  {
    var added := MissingTraktCatalogs(prev);
    TraktKeysOfCatalogs();
    MissingTraktCatalogsAbsent(prev);
    NewCatalogsKeys(TraktCatalogsToAdd, ExistingIds(prev));
    assert (set c | c in added :: Key(c)) == (set k | k in TraktKeys && !HasKey(prev, k)) by {
      forall k | k in TraktKeys && !HasKey(prev, k) ensures k in (set c | c in added :: Key(c)) {
        var tc :| tc in TraktCatalogsToAdd && Key(tc) == k;
        assert tc in added;
      }
    }
  }

  /** The merge leaves the list's entries in place, in order, followed by the
      Trakt catalogs whose key the list lacks, in declaration order:
      an entry with a Trakt key keeps every field except that it becomes
      enabled and shown on the home page; any other entry is unchanged; and
      the list grows by the number of Trakt keys it lacked. */
  lemma MergeShape(prev: seq<Catalog>)
    ensures |MergeTraktCatalogs(prev)| == |prev| + |set k | k in TraktKeys && !HasKey(prev, k)|
    ensures forall i :: 0 <= i < |prev| && Key(prev[i]) !in TraktKeys ==> MergeTraktCatalogs(prev)[i] == prev[i]
    ensures forall i :: 0 <= i < |prev| && Key(prev[i]) in TraktKeys ==>
      MergeTraktCatalogs(prev)[i] == prev[i].(enabled := true, showInHome := true)
    ensures MergeTraktCatalogs(prev)[|prev|..] == MissingTraktCatalogs(prev)
    ensures forall c :: c in MergeTraktCatalogs(prev)[|prev|..] <==> c in TraktCatalogsToAdd && !HasKey(prev, Key(c))
  {
    var m := MergeTraktCatalogs(prev);
    assert m[|prev|..] == MissingTraktCatalogs(prev);
    forall i | 0 <= i < |prev|
      ensures m[i] == if Key(prev[i]) in TraktKeys then prev[i].(enabled := true, showInHome := true) else prev[i]
    {
      UpdateEntryByKey(prev[i]);
    }
    MissingTraktCatalogsAbsent(prev);
    MissingTraktCatalogsCount(prev);
  }

  /** Every Trakt key belongs to one of the four Trakt catalogs. */
  lemma TraktCatalogOfKey(k: (string, string)) returns (tc: Catalog)
    requires k in TraktKeys
    ensures tc in TraktCatalogsToAdd && Key(tc) == k
  {
    TraktKeysOfCatalogs();
    tc :| tc in TraktCatalogsToAdd && Key(tc) == k;
  }

  /** After a merge the Trakt key `k` is present. */
  lemma MergeHasTraktKey(prev: seq<Catalog>, k: (string, string))
    requires k in TraktKeys
    ensures HasKey(MergeTraktCatalogs(prev), k)
  {
    var m := MergeTraktCatalogs(prev);
    if HasKey(prev, k) {
      var i :| 0 <= i < |prev| && Key(prev[i]) == k;
      assert m[i] == UpdateEntry(prev[i]);
    } else {
      var added := MissingTraktCatalogs(prev);
      var tc := TraktCatalogOfKey(k);
      MissingTraktCatalogsAbsent(prev);
      assert tc in added;
      var j :| 0 <= j < |added| && added[j] == tc;
      assert m[|prev| + j] == tc;
    }
  }

  /** After a merge all four Trakt keys are present. */
  lemma MergeHasTraktKeys(prev: seq<Catalog>)
    ensures forall k :: k in TraktKeys ==> HasKey(MergeTraktCatalogs(prev), k)
  {
    forall k | k in TraktKeys ensures HasKey(MergeTraktCatalogs(prev), k) {
      MergeHasTraktKey(prev, k);
    }
  }

  /** After a merge every entry with a Trakt key is enabled and shown on the
      home page. */
  lemma MergeEnablesTraktEntries(prev: seq<Catalog>)
    ensures forall i :: 0 <= i < |MergeTraktCatalogs(prev)| && Key(MergeTraktCatalogs(prev)[i]) in TraktKeys ==>
      MergeTraktCatalogs(prev)[i].enabled && MergeTraktCatalogs(prev)[i].showInHome
  {
    var m, added := MergeTraktCatalogs(prev), MissingTraktCatalogs(prev);
    TraktCatalogsEnabled();
    MissingTraktCatalogsAbsent(prev);
    forall i | 0 <= i < |m| && Key(m[i]) in TraktKeys ensures m[i].enabled && m[i].showInHome {
      if i < |prev| {
        assert m[i] == UpdateEntry(prev[i]);
        UpdateEntryByKey(prev[i]);
      } else {
        assert m[i] in added by { assert added[i - |prev|] == m[i]; }
      }
    }
  }

  /** A merged list lacks no Trakt catalog. */
  lemma MergedListMissesNothing(prev: seq<Catalog>)
    ensures MissingTraktCatalogs(MergeTraktCatalogs(prev)) == []
  {
    var m := MergeTraktCatalogs(prev);
    TraktKeysOfCatalogs();
    forall tc | tc in TraktCatalogsToAdd ensures StringKey(tc) in ExistingIds(m) {
      MergeHasTraktKey(prev, Key(tc));
      ExistingIdsOfTraktCatalog(m, tc);
    }
    NewCatalogsAllPresent(TraktCatalogsToAdd, ExistingIds(m));
  }

  /** Merging an already merged list changes nothing. */
  lemma MergeIdempotent(prev: seq<Catalog>)
    ensures MergeTraktCatalogs(MergeTraktCatalogs(prev)) == MergeTraktCatalogs(prev)
  {
    var m := MergeTraktCatalogs(prev);
    MergedListMissesNothing(prev);
    MergeEnablesTraktEntries(prev);
    forall i | 0 <= i < |m| ensures UpdatedCatalogs(m)[i] == m[i] {
      UpdateEntryByKey(m[i]);
    }
    assert UpdatedCatalogs(m) == m;
    assert m + [] == m;
  }

  /** The updater passed to `setCatalogs` on disconnect: keeps the entries
      whose id does not start with `trakt.`. */
  function RemoveTraktCatalogs(prev: seq<Catalog>): (r: seq<Catalog>)
    ensures |r| <= |prev|
    ensures forall c :: c in r <==> c in prev && !StartsWith(c.id, TraktPrefix)
  {
    if |prev| == 0 then []
    else (if StartsWith(prev[0].id, TraktPrefix) then [] else [prev[0]]) + RemoveTraktCatalogs(prev[1..])
  }

  /** The filter works entry by entry: removing from a concatenation is
      concatenating the removals, so the kept entries keep their order. */
  lemma {:induction false} RemoveTraktCatalogsAppend(a: seq<Catalog>, b: seq<Catalog>)
    ensures RemoveTraktCatalogs(a + b) == RemoveTraktCatalogs(a) + RemoveTraktCatalogs(b)
  {
    if |a| > 0 {
      assert (a + b)[1..] == a[1..] + b;
      RemoveTraktCatalogsAppend(a[1..], b);
    } else {
      assert a + b == b;
    }
  }

  /** The candidate filter works entry by entry. */
  lemma {:induction false} NewCatalogsAppend(a: seq<Catalog>, b: seq<Catalog>, existing: set<string>)
    ensures NewCatalogs(a + b, existing) == NewCatalogs(a, existing) + NewCatalogs(b, existing)
  {
    if |a| > 0 {
      var head := if StringKey(a[0]) in existing then [] else [a[0]];
      assert (a + b)[1..] == a[1..] + b;
      assert NewCatalogs(a + b, existing) == head + NewCatalogs(a[1..] + b, existing);
      NewCatalogsAppend(a[1..], b, existing);
      assert head + (NewCatalogs(a[1..], existing) + NewCatalogs(b, existing))
          == (head + NewCatalogs(a[1..], existing)) + NewCatalogs(b, existing);
    } else {
      assert a + b == b;
    }
  }

  /** `tc` when `prev` lacks its key, and nothing otherwise. */
  function IfMissing(prev: seq<Catalog>, tc: Catalog): seq<Catalog> {
    if HasKey(prev, Key(tc)) then [] else [tc]
  }

  /** The filter of one candidate. */
  lemma NewCatalogsSingle(prev: seq<Catalog>, tc: Catalog)
    requires tc in TraktCatalogsToAdd
    ensures NewCatalogs([tc], ExistingIds(prev)) == IfMissing(prev, tc)
  {
    ExistingIdsOfTraktCatalog(prev, tc);
    assert [tc][1..] == [];
  }

  /** The merge appends the missing Trakt catalogs in declaration order:
      each of the four in turn, when `prev` lacks its key. */
  lemma MergeAppendsInDeclarationOrder(prev: seq<Catalog>)
    ensures MergeTraktCatalogs(prev)[|prev|..] ==
      IfMissing(prev, TraktCatalogsToAdd[0]) + IfMissing(prev, TraktCatalogsToAdd[1]) +
      IfMissing(prev, TraktCatalogsToAdd[2]) + IfMissing(prev, TraktCatalogsToAdd[3])
  {
    var t, e := TraktCatalogsToAdd, ExistingIds(prev);
    assert t == [t[0]] + [t[1]] + [t[2]] + [t[3]];
    NewCatalogsAppend([t[0]] + [t[1]] + [t[2]], [t[3]], e);
    NewCatalogsAppend([t[0]] + [t[1]], [t[2]], e);
    NewCatalogsAppend([t[0]], [t[1]], e);
    NewCatalogsSingle(prev, t[0]);
    NewCatalogsSingle(prev, t[1]);
    NewCatalogsSingle(prev, t[2]);
    NewCatalogsSingle(prev, t[3]);
    assert MergeTraktCatalogs(prev)[|prev|..] == NewCatalogs(t, e);
  }

  /** A list without `trakt.` entries is left as it is. */
  lemma {:induction false} RemoveTraktCatalogsKeepsOthers(prev: seq<Catalog>)
    requires forall i :: 0 <= i < |prev| ==> !StartsWith(prev[i].id, TraktPrefix)
    ensures RemoveTraktCatalogs(prev) == prev
  {
    if |prev| > 0 {
      RemoveTraktCatalogsKeepsOthers(prev[1..]);
    }
  }

  /** A non-`trakt.` entry is never touched by the merge. */
  lemma NonTraktEntriesUntouched(c: Catalog)
    requires !StartsWith(c.id, TraktPrefix)
    ensures UpdateEntry(c) == c
  {
    TraktCatalogsEnabled();
    forall i | 0 <= i < |TraktCatalogsToAdd| ensures Key(TraktCatalogsToAdd[i]) != Key(c) {
      assert TraktCatalogsToAdd[i] in TraktCatalogsToAdd;
    }
  }

  /** Disconnecting and reconnecting yields the entries outside the `trakt.`
      namespace, unchanged and in order, followed by exactly the four Trakt
      catalogs, all enabled. */
  lemma RemoveThenMerge(prev: seq<Catalog>)
    ensures MergeTraktCatalogs(RemoveTraktCatalogs(prev)) == RemoveTraktCatalogs(prev) + TraktCatalogsToAdd
  {
    var kept := RemoveTraktCatalogs(prev);
    forall i | 0 <= i < |kept| ensures UpdatedCatalogs(kept)[i] == kept[i] {
      assert kept[i] in kept;
      NonTraktEntriesUntouched(kept[i]);
    }
    assert UpdatedCatalogs(kept) == kept;
    TraktCatalogsEnabled();
    var tcs := TraktCatalogsToAdd;
    forall tc | tc in tcs ensures StringKey(tc) !in ExistingIds(kept) {
      ExistingIdsOfTraktCatalog(kept, tc);
      forall i | 0 <= i < |kept| ensures Key(kept[i]) != Key(tc) {
        assert kept[i] in kept;
      }
    }
    NewCatalogsAllAbsent(tcs, ExistingIds(kept));
  }

  // ---- Accepting an authorization code and a token response ----

  /** The JSON body of a successful response from the token route: the
      fields the page reads, each possibly absent. */
  datatype TokenData = TokenData(
    error: Option<string>,
    success: Option<bool>,
    statusMessage: Option<string>,
    accessToken: Option<string>,
    refreshToken: Option<string>)

  /** The body of a non-ok response as `response.json()` finds it: JSON with
      an optional `error`, a body it cannot read fields from (not JSON, or the
      JSON `null`) with its text, or no body at all. */
  datatype ErrorBody = JsonError(error: Option<string>) | TextError(text: string) | NoBody

  /** A message that is never empty, such as that of an error the runtime throws. */
  type Message = s: string | s != "" witness "Error"

  /** What the `fetch` of the token route does. `FetchRejected(message)` also
      stands for an ok response whose body `response.json()` cannot parse, or
      whose JSON is `null`: both throw into the same outer `catch`. */
  datatype FetchOutcome = FetchRejected(message: string) | NotOk(body: ErrorBody) | OkJson(data: TokenData)

  /** The tokens a successful exchange hands to the page. */
  datatype Tokens = Tokens(accessToken: string, refreshToken: Option<string>)

  const InvalidCodeMessage: string := "Invalid authorization code"
  const TokenFailureDefault: string := "Failed to obtain access token"
  const EmptyTokenMessage: string := "Received empty access token"

  /** `!code || code.trim() === ''`. */
  predicate IsBlankCode(code: string): (b: bool)
    ensures b <==> IsBlank(code)
  {
    TrimEmptyIffBlank(code);
    code == "" || Trim(code) == ""
  }

  /** The message thrown for a non-ok response, as lines 24-33 are written.
      `response.json()` consumes the body before it fails on one it cannot
      read, so the `response.text()` of the `catch` rejects with the runtime's
      "body already used" error, whose message is `bodyUsed`, and that error
      escapes to the outer `catch`; only a response without a body reads as
      `""` there and falls back to the default. */
  function NotOkMessage(body: ErrorBody, bodyUsed: Message): (msg: string)
    ensures msg != ""
    ensures body.JsonError? ==> msg == if IsTruthy(body.error) then body.error.value else TokenFailureDefault
    ensures body.TextError? ==> msg == bodyUsed
    ensures body.NoBody? ==> msg == TokenFailureDefault
  {
    match body
    case JsonError(error) => if IsTruthy(error) then error.value else TokenFailureDefault
    case TextError(_) => bodyUsed
    case NoBody => TokenFailureDefault
  }

  /** What lines 24-33 evidently mean to do: the JSON `error` when the body
      is JSON, else the body's text, else the fixed default. Reading the text
      once and parsing it afterwards gives this. */
  function IntendedNotOkMessage(body: ErrorBody): (msg: string)
    ensures msg != ""
    ensures body.TextError? && body.text != "" ==> msg == body.text
    ensures body.TextError? && body.text == "" ==> msg == TokenFailureDefault
    ensures body.JsonError? ==> msg == if IsTruthy(body.error) then body.error.value else TokenFailureDefault
    ensures body.NoBody? ==> msg == TokenFailureDefault
  {
    match body
    case JsonError(error) => if IsTruthy(error) then error.value else TokenFailureDefault
    case TextError(text) => if text != "" then text else TokenFailureDefault
    case NoBody => TokenFailureDefault
  }

  /** The code as written and its evident intent agree except on a body that
      is not JSON, where the written code shows the runtime's error instead. */
  lemma NotOkMessageAgreesExceptOnText(body: ErrorBody, bodyUsed: Message)
    ensures !body.TextError? ==> NotOkMessage(body, bodyUsed) == IntendedNotOkMessage(body)
    ensures body.TextError? && body.text != "" && body.text != bodyUsed ==>
      NotOkMessage(body, bodyUsed) != IntendedNotOkMessage(body)
  {
  }

  /** A `502 Bad Gateway` page from a proxy: the intended message is the
      page's text, but as written the page never sees it, whatever the
      runtime's error says. */
  lemma NotOkTextNeverShown(bodyUsed: Message)
    requires bodyUsed != "Bad Gateway"
    ensures IntendedNotOkMessage(TextError("Bad Gateway")) == "Bad Gateway"
    ensures NotOkMessage(TextError("Bad Gateway"), bodyUsed) != "Bad Gateway"
  {
  }

  /** The checks of lines 39-46 on the token response. */
  function AcceptTokenData(data: TokenData): (r: Result<Tokens, string>)
    ensures r.Success? <==>
      && !IsTruthy(data.error) && data.success != Some(false)
      && data.accessToken.Some? && !IsBlank(data.accessToken.value)
    ensures r.Success? ==> r.value == Tokens(data.accessToken.value, data.refreshToken)
    ensures r.Failure? && IsTruthy(data.error) ==> r.error == data.error.value
    ensures r.Failure? && !IsTruthy(data.error) && data.success == Some(false) ==>
      r.error == if IsTruthy(data.statusMessage) then data.statusMessage.value else TokenFailureDefault
    ensures r.Failure? && !IsTruthy(data.error) && data.success != Some(false) ==> r.error == EmptyTokenMessage
    ensures r.Failure? ==> r.error != ""
  {
    if IsTruthy(data.error) || data.success == Some(false) then
      Failure(if IsTruthy(data.error) then data.error.value
              else if IsTruthy(data.statusMessage) then data.statusMessage.value
              else TokenFailureDefault)
    else if !IsTruthy(data.accessToken) || Trim(data.accessToken.value) == "" then
      TrimEmptyIffBlank(if data.accessToken.Some? then data.accessToken.value else "");
      Failure(EmptyTokenMessage)
    else
      TrimEmptyIffBlank(data.accessToken.value);
      Success(Tokens(data.accessToken.value, data.refreshToken))
  }

  /** The `try` block of `handleAccessToken` up to the point where tokens are
      stored: a blank code is refused before the route is fetched; a failed
      fetch, a non-ok response or a rejected token response give the message
      the page shows; `bodyUsed` is the message of the runtime's error for a
      body read twice. */
  function AcceptToken(code: string, fetch: string -> FetchOutcome, bodyUsed: Message): (r: Result<Tokens, string>)
    ensures IsBlank(code) ==> r == Failure(InvalidCodeMessage)
    ensures !IsBlank(code) && fetch(code).OkJson? ==> r == AcceptTokenData(fetch(code).data)
    ensures !IsBlank(code) && !fetch(code).OkJson? ==> r.Failure?
    ensures !IsBlank(code) && fetch(code).FetchRejected? ==> r == Failure(fetch(code).message)
    ensures !IsBlank(code) && fetch(code).NotOk? ==> r == Failure(NotOkMessage(fetch(code).body, bodyUsed))
    ensures r.Success? ==> !IsBlank(r.value.accessToken)
  {
    TrimEmptyIffBlank(code);
    if IsBlankCode(code) then Failure(InvalidCodeMessage)
    else match fetch(code)
      case FetchRejected(message) => Failure(message)
      case NotOk(body) => Failure(NotOkMessage(body, bodyUsed))
      case OkJson(data) => AcceptTokenData(data)
  }

  /** The page's share of the configuration: the two tokens and the catalog list. */
  datatype Connection = Connection(accessToken: string, refreshToken: string, catalogs: seq<Catalog>)

  /** What `handleAccessToken` does once the tokens are accepted: the access
      token is stored, the refresh token only when one came back, and the
      catalogs are merged. */
  function StoreTokens(s: Connection, g: Tokens): (r: Connection)
    ensures r.accessToken == g.accessToken
    ensures r.refreshToken == if IsTruthy(g.refreshToken) then g.refreshToken.value else s.refreshToken
    ensures r.catalogs == MergeTraktCatalogs(s.catalogs)
  {
    var refresh := if IsTruthy(g.refreshToken) then g.refreshToken.value else s.refreshToken;
    Connection(g.accessToken, refresh, MergeTraktCatalogs(s.catalogs))
  }

  /** `handleAccessToken(code)`: the new configuration and the error message
      shown (empty when the account was connected). Nothing is stored unless
      the code and the token response are accepted, and a stored access
      token is never blank. */
  function HandleAccessToken(s: Connection, code: string, fetch: string -> FetchOutcome, bodyUsed: Message): (r: (Connection, string))
    ensures AcceptToken(code, fetch, bodyUsed).Failure? ==> r == (s, AcceptToken(code, fetch, bodyUsed).error)
    ensures AcceptToken(code, fetch, bodyUsed).Success? ==>
      r == (StoreTokens(s, AcceptToken(code, fetch, bodyUsed).value), "") && !IsBlank(r.0.accessToken)
  {
    match AcceptToken(code, fetch, bodyUsed)
    case Failure(message) => (s, message)
    case Success(g) => (StoreTokens(s, g), "")
  }

  /** `handleLogout()`: both tokens cleared and the `trakt.` entries removed. */
  function HandleLogout(s: Connection): (r: Connection)
    ensures r.accessToken == "" && r.refreshToken == ""
    ensures r.catalogs == RemoveTraktCatalogs(s.catalogs)
    ensures forall c :: c in r.catalogs <==> c in s.catalogs && !StartsWith(c.id, TraktPrefix)
  {
    Connection("", "", RemoveTraktCatalogs(s.catalogs))
  }

  /** A blank code leaves the configuration as it was, whatever the token
      route would have answered: no request takes part in the result. */
  lemma BlankCodeIssuesNoRequest(s: Connection, code: string, fetch1: string -> FetchOutcome,
                                 fetch2: string -> FetchOutcome, bodyUsed: Message)
    requires IsBlank(code)
    ensures HandleAccessToken(s, code, fetch1, bodyUsed) == HandleAccessToken(s, code, fetch2, bodyUsed) == (s, InvalidCodeMessage)
  {
  }

  /** Disconnecting and connecting again clears nothing but the old tokens:
      the non-Trakt entries stay in order, followed by the four Trakt
      catalogs. */
  lemma LogoutThenConnect(s: Connection, g: Tokens)
    ensures StoreTokens(HandleLogout(s), g).catalogs == RemoveTraktCatalogs(s.catalogs) + TraktCatalogsToAdd
  {
    RemoveThenMerge(s.catalogs);
  }

  /** Connecting a second time leaves the catalog list as the first
      connection made it. */
  lemma ConnectTwice(s: Connection, g: Tokens, g2: Tokens)
    ensures StoreTokens(StoreTokens(s, g), g2).catalogs == StoreTokens(s, g).catalogs
  {
    MergeIdempotent(s.catalogs);
  }
}
