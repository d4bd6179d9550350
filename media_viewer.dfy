/**
  The full-screen viewer: which remote keys navigate or close it, whether
  the previous and next buttons are enabled, and which URL it shows.
 */
module MediaViewer {
  import opened Wrappers
  import opened Types
  import Client
  import Strings

  datatype Key = ArrowLeft | ArrowRight | Escape | OtherKey

  /** What a key asks of the panel that owns the viewer. */
  datatype ViewerAction = NavigatePrev | NavigateNext | Close | NoAction

  /** The `previous` button is enabled past the first asset. */
  predicate CanGoPrev(currentIndex: int) {
    currentIndex > 0
  }

  /** The `next` button is enabled before the last asset. */
  predicate CanGoNext(currentIndex: int, total: nat) {
    currentIndex < total - 1
  }

  /** The key handler: the arrows navigate only when the move exists; Escape always closes. */
  function KeyAction(key: Key, currentIndex: int, total: nat): (action: ViewerAction)
    ensures action == NavigatePrev <==> key == ArrowLeft && CanGoPrev(currentIndex)
    ensures action == NavigateNext <==> key == ArrowRight && CanGoNext(currentIndex, total)
    ensures action == Close <==> key == Escape
  {
    match key
    case ArrowLeft => if currentIndex > 0 then NavigatePrev else NoAction
    case ArrowRight => if currentIndex < total - 1 then NavigateNext else NoAction
    case Escape => Close
    case OtherKey => NoAction
  }

  /**
    The media shown: nothing without an asset; a video plays from its
    original file, anything else shows the preview-size thumbnail.
   */
  function MediaUrl(client: Client.ApiClient, asset: Option<Asset>): (url: Option<string>)
    ensures asset.None? <==> url.None?
  {
    match asset
    case None => None
    case Some(a) =>
      if a.assetType == Video then Some(Client.AssetUrl(client, a.id))
      else Some(Client.ThumbnailUrl(client, a.id, Client.Preview))
  }

  /**
    Either way the media URL is the one the client's blob fetch would build
    for the matching endpoint, so it carries the same credentials.
   */
  lemma MediaUrlIsBlobUrl(client: Client.ApiClient, a: Asset)
    requires a.assetType == Video ==> !Strings.Contains(client.baseUrl, '?') && !Strings.Contains(a.id, '?')
    ensures a.assetType == Video ==> MediaUrl(client, Some(a)) == Some(Client.BlobUrl(client, "/assets/" + a.id + "/original"))
    ensures a.assetType != Video ==> MediaUrl(client, Some(a)) == Some(Client.BlobUrl(client, "/assets/" + a.id + "/thumbnail?size=preview"))
  {
    if a.assetType == Video {
      Client.AssetUrlIsBlobUrl(client, a.id);
    } else {
      Client.ThumbnailUrlIsBlobUrl(client, a.id, Client.Preview);
      assert "/assets/" + a.id + "/thumbnail?size=" + Client.SizeName(Client.Preview) == "/assets/" + a.id + "/thumbnail?size=preview";
    }
  }
}
