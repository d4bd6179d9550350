/**
  The main panel's viewer state: which asset of the loaded timeline is open
  full screen, and how selecting, navigating, closing and the remote keys
  change it; and when reaching the end of the scroll loads another page.
 */
module MainPanel {
  import opened Wrappers
  import opened Types
  import opened UseAllAssets
  import opened MediaViewer
  import Immich
  import QueryConfig
  import UseAssets

  datatype ViewerState = ViewerState(isOpen: bool, assetIndex: int)

  datatype Direction = Prev | Next

  /** `findIndex` on ids: the first position holding `id`, or -1. */
  function FindIndex(assets: seq<Asset>, id: string): (r: int)
    ensures -1 <= r < |assets|
    ensures r >= 0 ==> assets[r].id == id && forall k :: 0 <= k < r ==> assets[k].id != id
    ensures r == -1 <==> forall k :: 0 <= k < |assets| ==> assets[k].id != id
  {
    if assets == [] then -1
    else if assets[0].id == id then 0
    else
      var r := FindIndex(assets[1..], id);
      assert forall k :: 1 <= k < |assets| ==> assets[k] == assets[1..][k - 1];
      if r == -1 then -1 else r + 1
  }

  /** The viewer state after moving one asset back or forward, clamped to the list. */
  function Navigate(state: Option<ViewerState>, total: nat, direction: Direction): (r: Option<ViewerState>)
    ensures state.None? <==> r.None?
    ensures r.Some? ==> r.value.isOpen == state.value.isOpen
  {
    match state
    case None => None
    case Some(s) =>
      var newIndex := match direction
        case Prev => if s.assetIndex - 1 > 0 then s.assetIndex - 1 else 0
        case Next => if total - 1 < s.assetIndex + 1 then total - 1 else s.assetIndex + 1;
      Some(s.(assetIndex := newIndex))
  }

  /** With at least one asset, navigating keeps an index inside the list inside it. */
  lemma NavigateStaysInRange(state: Option<ViewerState>, total: nat, direction: Direction)
    requires state.Some? && 0 <= state.value.assetIndex < total
    ensures var r := Navigate(state, total, direction);
      r.Some? && 0 <= r.value.assetIndex < total
      && (direction == Prev ==> r.value.assetIndex == if state.value.assetIndex > 0 then state.value.assetIndex - 1 else 0)
      && (direction == Next ==> r.value.assetIndex == if state.value.assetIndex < total - 1 then state.value.assetIndex + 1 else total - 1)
  {
  }

  /** With no assets, moving forward gives index -1, which shows no asset. */
  lemma NavigateNextOnEmpty(state: ViewerState)
    requires state.assetIndex >= 0
    ensures Navigate(Some(state), 0, Next) == Some(state.(assetIndex := -1))
    ensures ShownAsset([], Navigate(Some(state), 0, Next)).None?
  {
  }

  /** The asset handed to the viewer: `allAssets[assetIndex]` while open, nothing when out of range. */
  function ShownAsset(allAssets: seq<Asset>, state: Option<ViewerState>): (a: Option<Asset>)
    ensures a.Some? <==> state.Some? && state.value.isOpen && 0 <= state.value.assetIndex < |allAssets|
  {
    if state.Some? && state.value.isOpen && 0 <= state.value.assetIndex < |allAssets| then Some(allAssets[state.value.assetIndex]) else None
  }

  /** `handleScrollStop`: load the next page when there is one and none is loading. */
  function ShouldFetchNextPage(hasNextPage: bool, isFetchingNextPage: bool): (r: bool)
    ensures r <==> hasNextPage && !isFetchingNextPage
  {
    hasNextPage && !isFetchingNextPage
  }

  /**
    On the timeline walked from cursor 0, stopping the scroll after the page
    at the `k`-th cursor, with no page loading, fetches another page exactly
    when one is left, and then asks for the next cursor of the walk.
   */
  lemma ScrollStopFetchesNextListedPage(api: Immich.Api, k: nat)
    requires k < |UseAssets.PageCursors(|api.buckets|, UseAssets.InitialPageParam)|
    ensures var cursors := UseAssets.PageCursors(|api.buckets|, UseAssets.InitialPageParam);
      var next := UseAssets.NextPageParam(Immich.PageOf(api, api.buckets, cursors[k], QueryConfig.BucketsPerPage));
      && (ShouldFetchNextPage(next.Some?, false) <==> k + 1 < |cursors|)
      && (ShouldFetchNextPage(next.Some?, false) ==> next == Some(cursors[k + 1]))
  {
    UseAssets.PageCursorsFollowNextPageParam(api, UseAssets.InitialPageParam, k);
  }

  class Panel {
    var viewerState: Option<ViewerState>

    constructor()
      ensures viewerState == None
    {
      viewerState := None;
    }

    /** `handleSelectAsset`: opens the viewer on the first asset with the selected id; an unknown id changes nothing. */
    method SelectAsset(data: Option<InfiniteData>, asset: Asset)
      modifies this
      ensures var i := FindIndex(AllAssets(data), asset.id);
        && (i == -1 ==> viewerState == old(viewerState))
        && (i != -1 ==> viewerState == Some(ViewerState(true, i)))
      ensures viewerState != old(viewerState) ==>
        ShownAsset(AllAssets(data), viewerState).Some? && ShownAsset(AllAssets(data), viewerState).value.id == asset.id
    {
      var allAssets := AllAssets(data);
      var index := FindIndex(allAssets, asset.id);
      if index != -1 {
        viewerState := Some(ViewerState(true, index));
      }
    }

    /** `handleCloseViewer`. */
    method CloseViewer()
      modifies this
      ensures viewerState == None
    {
      viewerState := None;
    }

    /** `handleNavigateViewer`. */
    method NavigateViewer(data: Option<InfiniteData>, direction: Direction)
      modifies this
      ensures viewerState == Navigate(old(viewerState), |AllAssets(data)|, direction)
    {
      var allAssets := AllAssets(data);
      match viewerState
      case None =>
      case Some(prev) =>
        var newIndex := match direction
          case Prev => if prev.assetIndex - 1 > 0 then prev.assetIndex - 1 else 0
          case Next => if |allAssets| - 1 < prev.assetIndex + 1 then |allAssets| - 1 else prev.assetIndex + 1;
        viewerState := Some(prev.(assetIndex := newIndex));
    }

    /** A key pressed while the viewer is open, passed to the panel's handlers. */
    method HandleKey(data: Option<InfiniteData>, key: Key)
      requires viewerState.Some? && viewerState.value.isOpen
      modifies this
      ensures var before := old(viewerState.value.assetIndex);
        match KeyAction(key, before, |AllAssets(data)|)
        case NavigatePrev => viewerState == Some(old(viewerState.value).(assetIndex := before - 1))
        case NavigateNext => viewerState == Some(old(viewerState.value).(assetIndex := before + 1))
        case Close => viewerState == None
        case NoAction => viewerState == old(viewerState)
    {
      var allAssets := AllAssets(data);
      var action := KeyAction(key, viewerState.value.assetIndex, |allAssets|);
      match action
      case NavigatePrev => NavigateViewer(data, Prev);
      case NavigateNext => NavigateViewer(data, Next);
      case Close => CloseViewer();
      case NoAction =>
    }
  }
}
