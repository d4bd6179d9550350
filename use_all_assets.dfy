/**
  The flat list of every loaded asset, in timeline order, that the viewer
  navigates: pages in load order, groups in page order, assets in group
  order.
 */
module UseAllAssets {
  import opened Wrappers
  import opened Types
  import opened Grouping
  import Immich

  /** What the infinite query holds: no data yet, or the pages loaded so far, which may be missing. */
  datatype InfiniteData = InfiniteData(pages: Option<seq<GroupedAssetsPage>>)

  /** `groups.flatMap(group => group.assets)`. */
  function GroupsAssets(groups: seq<GroupedAsset>): seq<Asset> {
    if groups == [] then [] else groups[0].assets + GroupsAssets(groups[1..])
  }

  /** `pages.flatMap(page => page.groups.flatMap(...))`. */
  function PagesAssets(pages: seq<GroupedAssetsPage>): seq<Asset> {
    if pages == [] then [] else PagesAssets(pages[..|pages| - 1]) + GroupsAssets(pages[|pages| - 1].groups)
  }

  /** `useAllAssets`, and the `allAssets` of the main panel: empty until pages exist. */
  function AllAssets(data: Option<InfiniteData>): (r: seq<Asset>)
    ensures data.None? || data.value.pages.None? ==> r == []
    ensures data.Some? && data.value.pages.Some? ==> r == PagesAssets(data.value.pages.value)
  {
    if data.None? || data.value.pages.None? then [] else PagesAssets(data.value.pages.value)
  }

  /** Loading one more page only appends its assets: every earlier index keeps its asset. */
  lemma AppendPage(pages: seq<GroupedAssetsPage>, page: GroupedAssetsPage)
    ensures PagesAssets(pages + [page]) == PagesAssets(pages) + GroupsAssets(page.groups)
    ensures forall i :: 0 <= i < |PagesAssets(pages)| ==> PagesAssets(pages + [page])[i] == PagesAssets(pages)[i]
  {
    assert (pages + [page])[..|pages|] == pages;
  }

  /** The number of assets the groups say they hold. */
  lemma {:induction false} GroupsAssetsLength(groups: seq<GroupedAsset>)
    requires forall g :: g in groups ==> g.count == |g.assets|
    ensures |GroupsAssets(groups)| == SumCounts(groups)
  {
    if groups != [] {
      GroupsAssetsLength(groups[1..]);
    }
  }

  /** The totals the loaded pages report, added up. */
  function PagesTotal(pages: seq<GroupedAssetsPage>): nat {
    if pages == [] then 0 else PagesTotal(pages[..|pages| - 1]) + pages[|pages| - 1].totalAssets
  }

  /** A page whose total is the sum of its group counts, each the length of its group. */
  predicate CountsRight(page: GroupedAssetsPage) {
    && page.totalAssets == SumCounts(page.groups)
    && forall g :: g in page.groups ==> g.count == |g.assets|
  }

  /** When every page counts right, the flat list holds as many assets as the pages report in total. */
  lemma {:induction false} PagesAssetsLength(pages: seq<GroupedAssetsPage>)
    requires forall p :: p in pages ==> CountsRight(p)
    ensures |PagesAssets(pages)| == PagesTotal(pages)
  {
    if pages != [] {
      var last := pages[|pages| - 1];
      assert last in pages;
      PagesAssetsLength(pages[..|pages| - 1]);
      GroupsAssetsLength(last.groups);
    }
  }

  /** An asset is listed exactly when some loaded group holds it. */
  lemma {:induction false} GroupsAssetsMembers(groups: seq<GroupedAsset>, a: Asset)
    ensures a in GroupsAssets(groups) <==> exists g :: g in groups && a in g.assets
  {
    if groups != [] {
      GroupsAssetsMembers(groups[1..], a);
      assert forall g :: g in groups <==> g == groups[0] || g in groups[1..];
    }
  }

  /** Each page of the timeline adds as many assets as its total says. */
  lemma PageAddsItsTotal(api: Immich.Api, allBuckets: seq<TimelineBucket>, skip: nat, take: nat)
    ensures var page := Immich.PageOf(api, allBuckets, skip, take);
      |GroupsAssets(page.groups)| == page.totalAssets
  {
    var assets := Immich.FetchAll(api, Immich.Slice(allBuckets, skip, skip + take));
    GroupsByDayPartition(assets, api.dayKey, api.formatDate);
    GroupsAssetsLength(GroupsByDay(assets, api.dayKey, api.formatDate));
    Immich.PageFacts(api, allBuckets, skip, take);
  }

  /** Every page the server builds counts right. */
  lemma PageCountsRight(api: Immich.Api, allBuckets: seq<TimelineBucket>, skip: nat, take: nat)
    ensures CountsRight(Immich.PageOf(api, allBuckets, skip, take))
  {
    var assets := Immich.FetchAll(api, Immich.Slice(allBuckets, skip, skip + take));
    GroupsByDayPartition(assets, api.dayKey, api.formatDate);
    Immich.PageFacts(api, allBuckets, skip, take);
  }
}
