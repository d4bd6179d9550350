/**
  The records the Immich client exchanges with the server and between its
  parts. Nullable and optional fields are `Option`s; EXIF data is not
  carried, since no modelled operation reads it.
 */
module Types {
  import opened Wrappers

  datatype AssetType = Image | Video | Audio | Other

  /** One photo or video of the library. */
  datatype Asset = Asset(
    id: string,
    deviceAssetId: string,
    ownerId: string,
    deviceId: string,
    assetType: AssetType,
    originalPath: string,
    originalFileName: string,
    resized: bool,
    thumbhash: Option<string>,
    fileCreatedAt: string,
    fileModifiedAt: string,
    updatedAt: string,
    isFavorite: bool,
    isArchived: bool,
    mimeType: string,
    duration: Option<string>,
    livePhotoVideoId: Option<string>,
    tags: seq<string>)

  /** A day of the timeline as the server lists it. */
  datatype TimelineBucket = TimelineBucket(timeBucket: string, count: nat)

  /**
    The column-per-field answer for one bucket; only the columns the client
    reads are kept. `ratio` may be missing from the answer.
   */
  datatype ColumnarResponse = ColumnarResponse(
    id: seq<string>,
    duration: seq<Option<string>>,
    isFavorite: seq<bool>,
    isImage: seq<bool>,
    isTrashed: seq<bool>,
    livePhotoVideoId: seq<Option<string>>,
    fileCreatedAt: seq<string>,
    ownerId: seq<string>,
    ratio: Option<seq<real>>,
    thumbhash: seq<Option<string>>)

  /** The assets of one day, with the label shown above them. */
  datatype GroupedAsset = GroupedAsset(timeBucket: string, displayDate: string, assets: seq<Asset>, count: nat)

  datatype GroupedAssetsResponse = GroupedAssetsResponse(groups: seq<GroupedAsset>, totalAssets: nat)

  /** One page of the infinite timeline; `nextCursor` is the index of the next bucket to fetch. */
  datatype GroupedAssetsPage = GroupedAssetsPage(groups: seq<GroupedAsset>, totalAssets: nat, nextCursor: Option<nat>, hasMore: bool)

  datatype GetAssetsParams = GetAssetsParams(skip: Option<nat>, take: Option<nat>, isFavorite: Option<bool>, isArchived: Option<bool>)

  datatype GetBucketsParams = GetBucketsParams(skip: Option<nat>, take: Option<nat>)

  /**
    How the client authenticates: with an e-mail and password, which yield an
    access token, or with an API key. The password is never stored.
   */
  datatype AuthConfig =
    | UserCredentials(baseUrl: string, email: Option<string>, password: string, accessToken: Option<string>)
    | ApiKey(baseUrl: string, apiKey: Option<string>)
}
