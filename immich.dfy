/**
  The Immich API wrapper: turning the server's column-per-field bucket
  answers into asset records, filtering and slicing them, regrouping them by
  day, and cutting the timeline into pages of buckets.

  The server is not modelled: an `Api` value carries what it answers (the
  bucket list and the assets of each bucket), together with the local-time
  day key and the day label, which depend on the time zone and the clock.
 */
module Immich {
  import opened Wrappers
  import opened Strings
  import opened Types
  import opened Grouping
  import QueryConfig
  import JustifiedLayout

  /** The API wrapper together with what the server answers. */
  datatype Api = Api(
    buckets: seq<TimelineBucket>,
    bucketAssets: string -> seq<Asset>,
    dayKey: string -> string,
    formatDate: string -> string)

  /** Number of most recent buckets `getAssets` and `getGroupedAssets` read. */
  const RecentBucketCount: nat := 10
  /** Assets `getAssets` returns when no positive `take` is given. */
  const DefaultAssetLimit: nat := 500
  /** Buckets per page in `getGroupedAssetsPage` when no positive `take` is given. */
  const DefaultPageBuckets: nat := 5

  /** `o || d` for an optional count: absent and 0 both fall back to `d`. */
  function Or(o: Option<nat>, d: nat): (r: nat)
    ensures o.Some? && o.value != 0 ==> r == o.value
    ensures o.None? || o.value == 0 ==> r == d
  {
    if o.Some? && o.value != 0 then o.value else d
  }

  /** `s.slice(start, end)` for non-negative bounds: both are clamped to the length. */
  function Slice<T>(s: seq<T>, start: nat, end: nat): (r: seq<T>)
    ensures |r| <= |s| && (end <= start ==> r == []) && (start <= end ==> |r| <= end - start)
    ensures start <= end <= |s| ==> r == s[start..end]
    ensures start <= |s| <= end ==> r == s[start..]
  {
    var lo := if start < |s| then start else |s|;
    var hi := if end < |s| then end else |s|;
    if lo < hi then s[lo..hi] else []
  }

  lemma SliceWithin<T>(s: seq<T>, start: nat, end: nat)
    ensures forall x :: x in Slice(s, start, end) ==> x in s
  {
    var lo := if start < |s| then start else |s|;
    var hi := if end < |s| then end else |s|;
    if lo < hi {
      assert forall i :: 0 <= i < hi - lo ==> s[lo..hi][i] == s[lo + i];
    }
  }

  // ---- Columnar answers ----

  /** The transform reads index i of every column for each id, so every column is at least as long as `id`. */
  predicate ColumnsCover(c: ColumnarResponse) {
    var n := |c.id|;
    && |c.duration| >= n && |c.isFavorite| >= n && |c.isImage| >= n && |c.isTrashed| >= n
    && |c.livePhotoVideoId| >= n && |c.fileCreatedAt| >= n && |c.ownerId| >= n && |c.thumbhash| >= n
  }

  /** Every column has exactly one entry per id. */
  predicate ColumnsExact(c: ColumnarResponse) {
    var n := |c.id|;
    && |c.duration| == n && |c.isFavorite| == n && |c.isImage| == n && |c.isTrashed| == n
    && |c.livePhotoVideoId| == n && |c.fileCreatedAt| == n && |c.ownerId| == n && |c.thumbhash| == n
  }

  /** The record for index `i` of the columns. */
  function AssetAt(c: ColumnarResponse, i: nat): Asset
    requires ColumnsCover(c) && i < |c.id|
  {
    Asset(
      id := c.id[i],
      deviceAssetId := c.id[i],
      ownerId := c.ownerId[i],
      deviceId := "",
      assetType := if c.isImage[i] then Image else Video,
      originalPath := "",
      originalFileName := "",
      resized := true,
      thumbhash := c.thumbhash[i],
      fileCreatedAt := c.fileCreatedAt[i],
      fileModifiedAt := c.fileCreatedAt[i],
      updatedAt := c.fileCreatedAt[i],
      isFavorite := c.isFavorite[i],
      isArchived := c.isTrashed[i],
      mimeType := if c.isImage[i] then "image/jpeg" else "video/mp4",
      duration := c.duration[i],
      livePhotoVideoId := c.livePhotoVideoId[i],
      tags := [])
  }

  /**
    The shape of every record the transform builds: the fields the columns
    do not carry are filled in the same way each time, and the type is an
    image or a video with the matching MIME type.
   */
  predicate FromColumns(a: Asset) {
    && a.deviceAssetId == a.id && a.deviceId == "" && a.originalPath == "" && a.originalFileName == ""
    && a.resized && a.fileModifiedAt == a.fileCreatedAt && a.updatedAt == a.fileCreatedAt && a.tags == []
    && ((a.assetType == Image && a.mimeType == "image/jpeg") || (a.assetType == Video && a.mimeType == "video/mp4"))
  }

  /** `transformColumnarResponse`: one record per id, read across the columns at the same index. */
  function Transform(c: ColumnarResponse): (assets: seq<Asset>)
    requires ColumnsCover(c)
    ensures |assets| == |c.id|
    ensures forall i :: 0 <= i < |assets| ==> FromColumns(assets[i]) && assets[i].id == c.id[i]
  {
    seq(|c.id|, i requires 0 <= i < |c.id| => AssetAt(c, i))
  }

  /** The columns that records of the transform's shape came from. */
  function ToColumns(assets: seq<Asset>, ratio: Option<seq<real>>): (c: ColumnarResponse)
    ensures ColumnsExact(c) && |c.id| == |assets|
  {
    ColumnarResponse(
      id := seq(|assets|, i requires 0 <= i < |assets| => assets[i].id),
      duration := seq(|assets|, i requires 0 <= i < |assets| => assets[i].duration),
      isFavorite := seq(|assets|, i requires 0 <= i < |assets| => assets[i].isFavorite),
      isImage := seq(|assets|, i requires 0 <= i < |assets| => assets[i].assetType == Image),
      isTrashed := seq(|assets|, i requires 0 <= i < |assets| => assets[i].isArchived),
      livePhotoVideoId := seq(|assets|, i requires 0 <= i < |assets| => assets[i].livePhotoVideoId),
      fileCreatedAt := seq(|assets|, i requires 0 <= i < |assets| => assets[i].fileCreatedAt),
      ownerId := seq(|assets|, i requires 0 <= i < |assets| => assets[i].ownerId),
      ratio := ratio,
      thumbhash := seq(|assets|, i requires 0 <= i < |assets| => assets[i].thumbhash))
  }

  /** Records of the transform's shape are rebuilt exactly from their columns. */
  lemma TransformOfColumns(assets: seq<Asset>, ratio: Option<seq<real>>)
    requires forall a :: a in assets ==> FromColumns(a)
    ensures Transform(ToColumns(assets, ratio)) == assets
  {
    var r := Transform(ToColumns(assets, ratio));
    forall i | 0 <= i < |assets|
      ensures r[i] == assets[i]
    {
      assert FromColumns(assets[i]);
    }
  }

  /** The transform loses nothing of the columns it reads. */
  lemma ColumnsOfTransform(c: ColumnarResponse)
    requires ColumnsExact(c)
    ensures ToColumns(Transform(c), c.ratio) == c
  {
    var d := ToColumns(Transform(c), c.ratio);
    assert d.id == c.id;
    assert d.duration == c.duration;
    assert d.isFavorite == c.isFavorite;
    assert d.isImage == c.isImage;
    assert d.isTrashed == c.isTrashed;
    assert d.livePhotoVideoId == c.livePhotoVideoId;
    assert d.fileCreatedAt == c.fileCreatedAt;
    assert d.ownerId == c.ownerId;
    assert d.thumbhash == c.thumbhash;
  }

  /**
    `getBucketMetadata`: the ids and the aspect ratios of a bucket; without a
    ratio column every asset counts as square. A ratio column that is present
    is returned as it is, even when it is empty.
   */
  function BucketMetadata(c: ColumnarResponse): (r: (seq<string>, seq<real>))
    ensures r.0 == c.id
    ensures c.ratio.Some? ==> r.1 == c.ratio.value
    ensures c.ratio.None? ==> |r.1| == |c.id| && (forall i :: 0 <= i < |r.1| ==> r.1[i] == 1.0) && JustifiedLayout.AllPositive(r.1)
  {
    (c.id, c.ratio.GetOr(seq(|c.id|, _ => 1.0)))
  }

  // ---- Fetching and filtering ----

  /** The assets of the given buckets, bucket after bucket: `Promise.all(...).flat()`. */
  function FetchAll(api: Api, buckets: seq<TimelineBucket>): seq<Asset> {
    if buckets == [] then []
    else FetchAll(api, buckets[..|buckets| - 1]) + api.bucketAssets(buckets[|buckets| - 1].timeBucket)
  }

  lemma {:induction false} FetchAllAppend(api: Api, s: seq<TimelineBucket>, t: seq<TimelineBucket>)
    ensures FetchAll(api, s + t) == FetchAll(api, s) + FetchAll(api, t)
    decreases |t|
  {
    if t == [] {
      assert s + t == s;
    } else {
      assert (s + t)[..|s + t| - 1] == s + t[..|t| - 1];
      FetchAllAppend(api, s, t[..|t| - 1]);
    }
  }

  /** Every fetched asset comes from one of the buckets asked for. */
  lemma {:induction false} FetchAllFrom(api: Api, buckets: seq<TimelineBucket>, a: Asset)
    requires a in FetchAll(api, buckets)
    ensures exists b :: b in buckets && a in api.bucketAssets(b.timeBucket)
  {
    var init := buckets[..|buckets| - 1];
    var last := buckets[|buckets| - 1];
    if a !in api.bucketAssets(last.timeBucket) {
      FetchAllFrom(api, init, a);
      var b :| b in init && a in api.bucketAssets(b.timeBucket);
      assert b in buckets;
    }
  }

  /** Every asset of a requested bucket is fetched. */
  lemma {:induction false} FetchAllReaches(api: Api, buckets: seq<TimelineBucket>, b: TimelineBucket, a: Asset)
    requires b in buckets && a in api.bucketAssets(b.timeBucket)
    ensures a in FetchAll(api, buckets)
  {
    var init := buckets[..|buckets| - 1];
    var last := buckets[|buckets| - 1];
    if b != last {
      assert b in init by {
        var i :| 0 <= i < |buckets| && buckets[i] == b;
        assert i < |buckets| - 1 && init[i] == b;
      }
      FetchAllReaches(api, init, b, a);
    }
  }

  function FavoriteIs(v: bool): Asset -> bool {
    (a: Asset) => a.isFavorite == v
  }

  function ArchivedIs(v: bool): Asset -> bool {
    (a: Asset) => a.isArchived == v
  }

  /** Whether an asset passes the favourite and archived filters that are set. */
  predicate Matches(a: Asset, isFavorite: Option<bool>, isArchived: Option<bool>) {
    (isFavorite.None? || a.isFavorite == isFavorite.value) && (isArchived.None? || a.isArchived == isArchived.value)
  }

  /** The favourite filter, when set, then the archived filter, when set. */
  function FilterByFlags(assets: seq<Asset>, isFavorite: Option<bool>, isArchived: Option<bool>): (r: seq<Asset>)
    ensures forall a :: a in r <==> a in assets && Matches(a, isFavorite, isArchived)
  {
    var byFavorite := if isFavorite.Some? then Filter(assets, FavoriteIs(isFavorite.value)) else assets;
    if isArchived.Some? then Filter(byFavorite, ArchivedIs(isArchived.value)) else byFavorite
  }

  /**
    `getAssets`: the assets of the ten most recent buckets, filtered, then
    the window of `take` (500 when not positive) starting at `skip`.
   */
  method GetAssets(api: Api, params: GetAssetsParams) returns (r: seq<Asset>)
    ensures var all := FetchAll(api, Slice(api.buckets, 0, RecentBucketCount));
      var skip := Or(params.skip, 0);
      r == Slice(FilterByFlags(all, params.isFavorite, params.isArchived), skip, skip + Or(params.take, DefaultAssetLimit))
    ensures |r| <= Or(params.take, DefaultAssetLimit)
  {
    var buckets := api.buckets;
    var recentBuckets := Slice(buckets, 0, RecentBucketCount);
    var allAssets := FetchAll(api, recentBuckets);
    var filteredAssets := allAssets;
    if params.isFavorite.Some? {
      filteredAssets := Filter(filteredAssets, FavoriteIs(params.isFavorite.value));
    }
    if params.isArchived.Some? {
      filteredAssets := Filter(filteredAssets, ArchivedIs(params.isArchived.value));
    }
    var limit := Or(params.take, DefaultAssetLimit);
    var skip := Or(params.skip, 0);
    assert filteredAssets == FilterByFlags(allAssets, params.isFavorite, params.isArchived);
    r := Slice(filteredAssets, skip, skip + limit);
  }

  /** Every asset in a window of the filtered list comes from the input and passes the filters. */
  lemma FilteredWindow(assets: seq<Asset>, isFavorite: Option<bool>, isArchived: Option<bool>, start: nat, end: nat)
    ensures forall a :: a in Slice(FilterByFlags(assets, isFavorite, isArchived), start, end) ==> a in assets && Matches(a, isFavorite, isArchived)
  {
    SliceWithin(FilterByFlags(assets, isFavorite, isArchived), start, end);
  }

  // ---- Regrouping ----

  /**
    `applyFilter`: keeps the assets of each group that pass, recounts them,
    and drops the groups left empty.
   */
  function ApplyFilter(groups: seq<GroupedAsset>, keep: Asset -> bool): (r: seq<GroupedAsset>)
    ensures |r| <= |groups|
    ensures forall g :: g in r ==> 0 < g.count == |g.assets| && forall a :: a in g.assets ==> keep(a)
  {
    if groups == [] then []
    else
      var group := Refiltered(groups[0], keep);
      var rest := ApplyFilter(groups[1..], keep);
      if group.count > 0 then [group] + rest else rest
  }

  /** One group with only its passing assets, recounted; its key and label stay. */
  function Refiltered(g: GroupedAsset, keep: Asset -> bool): GroupedAsset {
    var assets := Filter(g.assets, keep);
    g.(assets := assets, count := |assets|)
  }

  /**
    A group survives the filter exactly when some of its assets pass: it is
    then kept with the same key and label and only the passing assets.
   */
  lemma {:induction false} ApplyFilterMembers(groups: seq<GroupedAsset>, keep: Asset -> bool)
    ensures forall h :: h in ApplyFilter(groups, keep) <==> exists g :: g in groups && h == Refiltered(g, keep) && 0 < h.count
  {
    if groups != [] {
      ApplyFilterMembers(groups[1..], keep);
      var r := ApplyFilter(groups, keep);
      var rest := ApplyFilter(groups[1..], keep);
      var group := Refiltered(groups[0], keep);
      assert r == if group.count > 0 then [group] + rest else rest;
      forall h
        ensures h in r <==> exists g :: g in groups && h == Refiltered(g, keep) && 0 < h.count
      {
        if h in r {
          if h in rest {
            var g :| g in groups[1..] && h == Refiltered(g, keep) && 0 < h.count;
            assert g in groups;
          } else {
            assert h == group && groups[0] in groups;
          }
        }
        if exists g :: g in groups && h == Refiltered(g, keep) && 0 < h.count {
          var g :| g in groups && h == Refiltered(g, keep) && 0 < h.count;
          if g != groups[0] {
            assert g in groups[1..];
          }
        }
      }
    }
  }

  /** The keys among `keys` that still have assets once `assets` is filtered. */
  function KeptKeys(keys: seq<string>, assets: seq<Asset>, dayKey: string -> string): (r: seq<string>)
    ensures forall k :: k in r <==> k in keys && HasDay(assets, dayKey, k)
  {
    if keys == [] then []
    else (if HasDay(assets, dayKey, keys[0]) then [keys[0]] else []) + KeptKeys(keys[1..], assets, dayKey)
  }

  lemma {:induction false} KeptKeysDescending(keys: seq<string>, assets: seq<Asset>, dayKey: string -> string)
    requires Descending(keys)
    ensures Descending(KeptKeys(keys, assets, dayKey))
  {
    if keys != [] {
      KeptKeysDescending(keys[1..], assets, dayKey);
      var rest := KeptKeys(keys[1..], assets, dayKey);
      forall j | 0 <= j < |rest|
        ensures LexLess(rest[j], keys[0])
      {
        assert rest[j] in keys[1..];
      }
    }
  }

  lemma DayFilterNonEmpty(assets: seq<Asset>, dayKey: string -> string, key: string)
    ensures DayFilter(assets, dayKey, key) != [] <==> HasDay(assets, dayKey, key)
  {
    if HasDay(assets, dayKey, key) {
      var a :| a in assets && dayKey(a.fileCreatedAt) == key;
      assert a in DayFilter(assets, dayKey, key);
    } else {
      DayFilterNone(assets, dayKey, key);
    }
  }

  /** Filtering the group of a day gives the group of that day among the passing assets. */
  lemma RefilteredGroup(key: string, assets: seq<Asset>, dayKey: string -> string, formatDate: string -> string, keep: Asset -> bool)
    ensures Refiltered(MakeGroup(key, assets, dayKey, formatDate), keep) == MakeGroup(key, Filter(assets, keep), dayKey, formatDate)
  {
    FilterCommutes(assets, DayIs(dayKey, key), keep);
  }

  /** The groups of the first key and of the remaining keys. */
  lemma GroupsForCons(keys: seq<string>, assets: seq<Asset>, dayKey: string -> string, formatDate: string -> string)
    requires keys != []
    ensures GroupsFor(keys, assets, dayKey, formatDate) == [MakeGroup(keys[0], assets, dayKey, formatDate)] + GroupsFor(keys[1..], assets, dayKey, formatDate)
  {
  }

  lemma {:induction false} ApplyFilterGroupsFor(keys: seq<string>, assets: seq<Asset>, dayKey: string -> string, formatDate: string -> string, keep: Asset -> bool)
    ensures ApplyFilter(GroupsFor(keys, assets, dayKey, formatDate), keep)
      == GroupsFor(KeptKeys(keys, Filter(assets, keep), dayKey), Filter(assets, keep), dayKey, formatDate)
  {
    if keys != [] {
      var kept := Filter(assets, keep);
      GroupsForCons(keys, assets, dayKey, formatDate);
      ApplyFilterGroupsFor(keys[1..], assets, dayKey, formatDate, keep);
      RefilteredGroup(keys[0], assets, dayKey, formatDate, keep);
      DayFilterNonEmpty(kept, dayKey, keys[0]);
      var restKeys := KeptKeys(keys[1..], kept, dayKey);
      if HasDay(kept, dayKey, keys[0]) {
        GroupsForCons([keys[0]] + restKeys, kept, dayKey, formatDate);
        assert ([keys[0]] + restKeys)[1..] == restKeys;
      } else {
        assert [] + restKeys == restKeys;
      }
    }
  }

  /** Filtering the groups by day equals grouping the filtered assets by day. */
  lemma ApplyFilterGroupsByDay(assets: seq<Asset>, dayKey: string -> string, formatDate: string -> string, keep: Asset -> bool)
    ensures ApplyFilter(GroupsByDay(assets, dayKey, formatDate), keep) == GroupsByDay(Filter(assets, keep), dayKey, formatDate)
  {
    var keys := Sort(DayKeys(assets, dayKey));
    var kept := Filter(assets, keep);
    ApplyFilterGroupsFor(keys, assets, dayKey, formatDate, keep);
    SortDescending(DayKeys(assets, dayKey));
    KeptKeysDescending(keys, kept, dayKey);
    SortDescending(DayKeys(kept, dayKey));
    forall k
      ensures k in KeptKeys(keys, kept, dayKey) <==> k in Sort(DayKeys(kept, dayKey))
    {
      if HasDay(kept, dayKey, k) {
        var a :| a in kept && dayKey(a.fileCreatedAt) == k;
        assert HasDay(assets, dayKey, k);
      }
    }
    DescendingUnique(KeptKeys(keys, kept, dayKey), Sort(DayKeys(kept, dayKey)));
  }

  /**
    `getGroupedAssets`: the assets of the ten most recent buckets grouped by
    day, then narrowed by the favourite and archived filters. `skip` and
    `take` are not used.
   */
  method GetGroupedAssets(api: Api, params: GetAssetsParams) returns (r: GroupedAssetsResponse)
    ensures var all := FetchAll(api, Slice(api.buckets, 0, RecentBucketCount));
      var filtered := FilterByFlags(all, params.isFavorite, params.isArchived);
      r.groups == GroupsByDay(filtered, api.dayKey, api.formatDate) && r.totalAssets == |filtered|
  {
    var buckets := api.buckets;
    var recentBuckets := Slice(buckets, 0, RecentBucketCount);
    var allAssets := FetchAll(api, recentBuckets);
    var filteredGroups := GroupAssetsByDay(allAssets, api.dayKey, api.formatDate);
    ghost var filtered := allAssets;
    if params.isFavorite.Some? {
      ApplyFilterGroupsByDay(filtered, api.dayKey, api.formatDate, FavoriteIs(params.isFavorite.value));
      filteredGroups := ApplyFilter(filteredGroups, FavoriteIs(params.isFavorite.value));
      filtered := Filter(filtered, FavoriteIs(params.isFavorite.value));
    }
    if params.isArchived.Some? {
      ApplyFilterGroupsByDay(filtered, api.dayKey, api.formatDate, ArchivedIs(params.isArchived.value));
      filteredGroups := ApplyFilter(filteredGroups, ArchivedIs(params.isArchived.value));
      filtered := Filter(filtered, ArchivedIs(params.isArchived.value));
    }
    SumCountsGroupsByDay(filtered, api.dayKey, api.formatDate);
    r := GroupedAssetsResponse(filteredGroups, SumCounts(filteredGroups));
  }

  // ---- Pages of buckets ----

  /**
    The page of buckets `[skip, skip + take)`: their assets grouped by day,
    how many assets that is, and the cursor of the next page while buckets
    remain.
   */
  function PageOf(api: Api, allBuckets: seq<TimelineBucket>, skip: nat, take: nat): GroupedAssetsPage {
    var assets := FetchAll(api, Slice(allBuckets, skip, skip + take));
    var more := skip + take < |allBuckets|;
    GroupedAssetsPage(GroupsByDay(assets, api.dayKey, api.formatDate), |assets|, if more then Some(skip + take) else None, more)
  }

  lemma {:induction false} FilterKeepsAll<T(!new)>(s: seq<T>, keep: T -> bool)
    requires forall x :: x in s ==> keep(x)
    ensures Filter(s, keep) == s
  {
    if s != [] {
      var init := s[..|s| - 1];
      assert s == init + [s[|s| - 1]];
      FilterKeepsAll(init, keep);
    }
  }

  function NonEmptyGroup(): GroupedAsset -> bool {
    (g: GroupedAsset) => g.count > 0
  }

  /** Shared body of the two page builders, once `skip` and `take` are settled. */
  method BuildPage(api: Api, allBuckets: seq<TimelineBucket>, skip: nat, take: nat) returns (page: GroupedAssetsPage)
    ensures page == PageOf(api, allBuckets, skip, take)
  {
    var pageBuckets := Slice(allBuckets, skip, skip + take);
    var allAssets := FetchAll(api, pageBuckets);
    var dailyGroups := GroupAssetsByDay(allAssets, api.dayKey, api.formatDate);
    GroupsByDayPartition(allAssets, api.dayKey, api.formatDate);
    FilterKeepsAll(dailyGroups, NonEmptyGroup());
    var nonEmptyGroups := Filter(dailyGroups, NonEmptyGroup());
    SumCountsGroupsByDay(allAssets, api.dayKey, api.formatDate);
    var more := skip + take < |allBuckets|;
    page := GroupedAssetsPage(nonEmptyGroups, SumCounts(nonEmptyGroups), if more then Some(skip + take) else None, more);
  }

  /** `getGroupedAssetsPage`: fetches the bucket list itself; five buckets per page by default. */
  method GetGroupedAssetsPage(api: Api, params: GetBucketsParams) returns (page: GroupedAssetsPage)
    ensures page == PageOf(api, api.buckets, Or(params.skip, 0), Or(params.take, DefaultPageBuckets))
  {
    var allBuckets := api.buckets;
    var skip := Or(params.skip, 0);
    var take := Or(params.take, DefaultPageBuckets);
    page := BuildPage(api, allBuckets, skip, take);
  }

  /** `getGroupedAssetsPageWithBuckets`: uses a bucket list already fetched; `BucketsPerPage` buckets by default. */
  method GetGroupedAssetsPageWithBuckets(api: Api, allBuckets: seq<TimelineBucket>, params: GetBucketsParams) returns (page: GroupedAssetsPage)
    ensures page == PageOf(api, allBuckets, Or(params.skip, 0), Or(params.take, QueryConfig.BucketsPerPage))
  {
    var skip := Or(params.skip, 0);
    var take := Or(params.take, QueryConfig.BucketsPerPage);
    page := BuildPage(api, allBuckets, skip, take);
  }

  /**
    What a page promises: a next cursor exactly when more buckets remain,
    equal to the end of this page's window; a total that is the sum of the
    counts; and only assets of the buckets in the window.
   */
  lemma PageFacts(api: Api, allBuckets: seq<TimelineBucket>, skip: nat, take: nat)
    ensures var page := PageOf(api, allBuckets, skip, take);
      && (page.hasMore <==> page.nextCursor.Some?)
      && (page.nextCursor.Some? <==> skip + take < |allBuckets|)
      && (page.nextCursor.Some? ==> page.nextCursor.value == skip + take)
      && page.totalAssets == SumCounts(page.groups)
      && forall g, a :: g in page.groups && a in g.assets ==>
           exists b :: b in Slice(allBuckets, skip, skip + take) && a in api.bucketAssets(b.timeBucket)
  {
    var assets := FetchAll(api, Slice(allBuckets, skip, skip + take));
    SumCountsGroupsByDay(assets, api.dayKey, api.formatDate);
    GroupsByDayPartition(assets, api.dayKey, api.formatDate);
    forall g, a | g in GroupsByDay(assets, api.dayKey, api.formatDate) && a in g.assets
      ensures exists b :: b in Slice(allBuckets, skip, skip + take) && a in api.bucketAssets(b.timeBucket)
    {
      FetchAllFrom(api, Slice(allBuckets, skip, skip + take), a);
    }
  }
}
