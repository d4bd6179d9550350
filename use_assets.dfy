/**
  The asset queries: the query functions, when they are enabled, and how the
  infinite timeline walks from one page of buckets to the next.
 */
module UseAssets {
  import opened Wrappers
  import opened Types
  import opened Immich
  import QueryConfig

  /** `take` of the flat asset query. */
  const AssetsTake: nat := 500
  /** Cursor of the first page of the infinite timeline. */
  const InitialPageParam: nat := 0

  const NoApiMessage: string := "API client not available"

  /** A query runs only once an API client exists. */
  predicate Enabled(api: Option<Api>) {
    api.Some?
  }

  /**
    The query function of `useAssets`: the first 500 assets, in timeline
    order, of the ten most recent buckets, or an error without a client.
   */
  method QueryAssets(api: Option<Api>) returns (r: Result<seq<Asset>>)
    ensures !Enabled(api) <==> r == Error(NoApiMessage)
    ensures Enabled(api) ==> var all := FetchAll(api.value, Slice(api.value.buckets, 0, RecentBucketCount));
      r == Ok(if |all| <= AssetsTake then all else all[..AssetsTake])
  {
    if api.None? {
      return Error(NoApiMessage);
    }
    var assets := GetAssets(api.value, GetAssetsParams(None, Some(AssetsTake), None, None));
    r := Ok(assets);
  }

  /** The query function of the infinite timeline: the page of `BucketsPerPage` buckets from `pageParam`. */
  method QueryPage(api: Option<Api>, pageParam: nat) returns (r: Result<GroupedAssetsPage>)
    ensures !Enabled(api) ==> r == Error(NoApiMessage)
    ensures Enabled(api) ==> r == Ok(PageOf(api.value, api.value.buckets, pageParam, QueryConfig.BucketsPerPage))
  {
    if api.None? {
      return Error(NoApiMessage);
    }
    var page := GetGroupedAssetsPage(api.value, GetBucketsParams(Some(pageParam), Some(QueryConfig.BucketsPerPage)));
    r := Ok(page);
  }

  /** `getNextPageParam`: the next cursor while the last page says more remain, otherwise no next page. */
  function NextPageParam(lastPage: GroupedAssetsPage): (r: Option<nat>)
    ensures !lastPage.hasMore ==> r.None?
    ensures lastPage.hasMore ==> r == lastPage.nextCursor
  {
    if lastPage.hasMore then lastPage.nextCursor else None
  }

  /** The next cursor after the page at `cursor` advances by one page while buckets remain. */
  lemma NextPageParamOfPage(api: Api, cursor: nat)
    ensures NextPageParam(PageOf(api, api.buckets, cursor, QueryConfig.BucketsPerPage))
      == if cursor + QueryConfig.BucketsPerPage < |api.buckets| then Some(cursor + QueryConfig.BucketsPerPage) else None
  {
    PageFacts(api, api.buckets, cursor, QueryConfig.BucketsPerPage);
  }

  /**
    The cursors the infinite timeline requests over `n` buckets from
    `cursor` on: one page further each time, while buckets remain.
   */
  function PageCursors(n: nat, cursor: nat): seq<nat>
    decreases n - cursor
  {
    [cursor] + if cursor + QueryConfig.BucketsPerPage < n then PageCursors(n, cursor + QueryConfig.BucketsPerPage) else []
  }

  /** The cursor at `k` is followed by one a page further on, or, as the last one, leaves no bucket after its page. */
  predicate StepsAt(n: nat, cursors: seq<nat>, k: nat)
    requires k < |cursors|
  {
    if k + 1 < |cursors| then cursors[k] + QueryConfig.BucketsPerPage < n && cursors[k + 1] == cursors[k] + QueryConfig.BucketsPerPage
    else n <= cursors[k] + QueryConfig.BucketsPerPage
  }

  /** Each listed cursor is one page after the previous, and only the last leaves no bucket after its page. */
  lemma {:induction false} PageCursorsStep(n: nat, cursor: nat)
    ensures forall k :: 0 <= k < |PageCursors(n, cursor)| ==> StepsAt(n, PageCursors(n, cursor), k)
    decreases n - cursor
  {
    var step := QueryConfig.BucketsPerPage;
    var cursors := PageCursors(n, cursor);
    if cursor + step < n {
      var rest := PageCursors(n, cursor + step);
      PageCursorsStep(n, cursor + step);
      assert cursors == [cursor] + rest;
      assert rest[0] == cursor + step;
      forall k | 1 <= k < |cursors|
        ensures StepsAt(n, cursors, k)
      {
        assert StepsAt(n, rest, k - 1);
        assert cursors[k] == rest[k - 1];
        if k + 1 < |cursors| {
          assert cursors[k + 1] == rest[k];
        }
      }
    } else {
      assert cursors == [cursor];
    }
  }

  /**
    These are the cursors `getNextPageParam` hands out: after each page the
    next cursor is the next one listed, and after the last there is none.
   */
  lemma PageCursorsFollowNextPageParam(api: Api, cursor: nat, k: nat)
    requires k < |PageCursors(|api.buckets|, cursor)|
    ensures var cursors := PageCursors(|api.buckets|, cursor);
      NextPageParam(PageOf(api, api.buckets, cursors[k], QueryConfig.BucketsPerPage)) == if k + 1 < |cursors| then Some(cursors[k + 1]) else None
  {
    PageCursorsStep(|api.buckets|, cursor);
    assert StepsAt(|api.buckets|, PageCursors(|api.buckets|, cursor), k);
    NextPageParamOfPage(api, PageCursors(|api.buckets|, cursor)[k]);
  }

  /** The buckets of the pages at the given cursors, page after page. */
  function Windows(buckets: seq<TimelineBucket>, cursors: seq<nat>): seq<TimelineBucket> {
    if cursors == [] then []
    else Slice(buckets, cursors[0], cursors[0] + QueryConfig.BucketsPerPage) + Windows(buckets, cursors[1..])
  }

  /** The `k`-th cursor requested from `cursor` on is `k` pages further on. */
  lemma {:induction false} PageCursorsAt(n: nat, cursor: nat)
    ensures forall k :: 0 <= k < |PageCursors(n, cursor)| ==> PageCursors(n, cursor)[k] == cursor + k * QueryConfig.BucketsPerPage
    decreases n - cursor
  {
    var step := QueryConfig.BucketsPerPage;
    var cursors := PageCursors(n, cursor);
    if cursor + step < n {
      var rest := PageCursors(n, cursor + step);
      PageCursorsAt(n, cursor + step);
      assert cursors == [cursor] + rest;
      forall k | 1 <= k < |cursors|
        ensures cursors[k] == cursor + k * step
      {
        assert cursors[k] == rest[k - 1] == cursor + step + (k - 1) * step;
      }
    }
  }

  /** The walk starts at `cursor` and continues with the walk from the next page while buckets remain. */
  lemma PageCursorsUnfold(n: nat, cursor: nat)
    ensures |PageCursors(n, cursor)| > 0 && PageCursors(n, cursor)[0] == cursor
    ensures PageCursors(n, cursor)[1..] == if cursor + QueryConfig.BucketsPerPage < n then PageCursors(n, cursor + QueryConfig.BucketsPerPage) else []
  {
    var rest := if cursor + QueryConfig.BucketsPerPage < n then PageCursors(n, cursor + QueryConfig.BucketsPerPage) else [];
    assert PageCursors(n, cursor) == [cursor] + rest;
  }

  /** A page-sized window followed by everything after it is everything from its start. */
  lemma WindowThenRest(buckets: seq<TimelineBucket>, start: nat, end: nat)
    requires start <= end <= |buckets|
    ensures Slice(buckets, start, end) + buckets[end..] == buckets[start..]
  {
    assert buckets[start..] == buckets[start..end] + buckets[end..];
  }

  /**
    Walking the pages from any cursor inside the list requests every later
    bucket exactly once, in order.
   */
  lemma {:induction false} PagesCoverBuckets(buckets: seq<TimelineBucket>, cursor: nat)
    requires cursor <= |buckets|
    ensures Windows(buckets, PageCursors(|buckets|, cursor)) == buckets[cursor..]
    decreases |buckets| - cursor
  {
    var n := |buckets|;
    var step := QueryConfig.BucketsPerPage;
    PageCursorsUnfold(n, cursor);
    if cursor + step < n {
      PagesCoverBuckets(buckets, cursor + step);
      WindowThenRest(buckets, cursor, cursor + step);
    } else {
      assert Windows(buckets, []) == [];
    }
  }

  lemma {:induction false} FetchAllWindows(api: Api, cursors: seq<nat>)
    ensures FetchAll(api, Windows(api.buckets, cursors))
      == FetchAllPages(api, cursors)
  {
    if cursors != [] {
      FetchAllWindows(api, cursors[1..]);
      FetchAllAppend(api, Slice(api.buckets, cursors[0], cursors[0] + QueryConfig.BucketsPerPage), Windows(api.buckets, cursors[1..]));
    }
  }

  /** The assets of the pages at the given cursors, page after page. */
  function FetchAllPages(api: Api, cursors: seq<nat>): seq<Asset> {
    if cursors == [] then []
    else FetchAll(api, Slice(api.buckets, cursors[0], cursors[0] + QueryConfig.BucketsPerPage)) + FetchAllPages(api, cursors[1..])
  }

  /** All the pages of the infinite timeline together hold exactly the assets of every bucket. */
  lemma AllPagesFetchEverything(api: Api)
    ensures FetchAllPages(api, PageCursors(|api.buckets|, InitialPageParam)) == FetchAll(api, api.buckets)
  {
    PagesCoverBuckets(api.buckets, InitialPageParam);
    FetchAllWindows(api, PageCursors(|api.buckets|, InitialPageParam));
    assert api.buckets[0..] == api.buckets;
  }

  /** With ten buckets the timeline asks for the pages at 0, 3, 6 and 9, and the last says no more remain. */
  lemma TenBuckets(api: Api)
    requires |api.buckets| == 10
    ensures PageCursors(|api.buckets|, InitialPageParam) == [0, 3, 6, 9]
    ensures NextPageParam(PageOf(api, api.buckets, 9, QueryConfig.BucketsPerPage)).None?
  {
    TenCursors();
    PageCursorsFollowNextPageParam(api, 0, 3);
  }

  /** Ten buckets are walked in four pages. */
  lemma TenCursors()
    ensures PageCursors(10, 0) == [0, 3, 6, 9]
  {
    assert PageCursors(10, 9) == [9];
    assert PageCursors(10, 6) == [6, 9];
    assert PageCursors(10, 3) == [3, 6, 9];
  }
}
