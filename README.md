# Immich webOS TV client: a verified model of its core

This project models the core logic of a webOS television client for an Immich photo server, written in Dafny. The client does five things:

- it signs in, with an e-mail address and password or with an API key, and keeps the login in the browser's key-value store;
- it pages through the server's timeline of day buckets and regroups assets by day, newest day first;
- it lays each day out in justified rows;
- it opens a full-screen viewer that the remote's arrow keys move through;
- it shows video durations in short form.

Each module follows one source file. The contracts state what the code promises, and lemmas relate the operations to each other.

- `JustifiedLayout` (`src/utils/justifiedLayout.ts`): the greedy row packer is a method with a loop. It is proved to produce the one layout that meets the packing rules, `GreedyLayout`:
  - the rows cover the indices in order;
  - no row is empty;
  - every closed row is justified to the container width, and was closed because the next asset overflowed it;
  - the last row keeps the 280 px target height.
- `Grouping` (`groupAssetsByDay` in `src/api/immich.ts`): the day map is built in a loop and then sorted. It is proved equal to `GroupsByDay`, a specification that partitions the assets into one group per day in descending key order.
- `Immich` (`src/api/immich.ts`), which covers:
  - the columnar-to-record transform, with its inverse;
  - the ratio fallback;
  - the favourite and archived filters;
  - `skip`/`take` slicing;
  - regrouping after a filter;
  - the page and cursor arithmetic.
- `QueryConfig` and `UseAssets` (`src/hooks/queryConfig.ts`, `src/hooks/useAssets.ts`): the retry rule, and the infinite timeline's cursor walk. The walk is proved to fetch every bucket exactly once.
- `UseAllAssets`, `MainPanel` and `MediaViewer`: the flat asset list the viewer walks; the panel's viewer state as a class; the clamped navigation; the remote keys; the media URL.
- `Client` (`src/api/client.ts`): base URL normalisation, the authentication headers, the media authentication parameter, and the media URLs.
- `Storage` (`src/utils/storage.ts`): a class over a map of stored values, which validates the login configuration when it reads it.
- `UseAuth` (`src/hooks/useAuth.ts`): the session as a class with state cells and the store. Its invariant ties the configuration it holds to the store and to the client it hands out. Network answers are parameters.
- `Formatters` and `FormattingService`: the two duration formatters.
- `Strings`, `Types` and `Wrappers`: the JavaScript string operations the modules use; the records of `src/api/types.ts`; and `Option`/`Result`.

With no assets the layout's total height is -8 (`src/utils/justifiedLayout.ts:45`): the code subtracts one gap even when there are no rows.

## Model

| member | source | states |
|---|---|---|
| JustifiedLayout.CalculateJustifiedLayout | src/utils/justifiedLayout.ts:14-48 | The rows meet every packing rule (`IsGreedyLayout`): their indices concatenate to 0..n-1 in order; no row is empty; each row fits the container width or holds one asset; each closed row overflows with its successor's first asset and is justified to the width; the last row is 280 high. The rows equal `GreedyLayout`. The total height is the sum of heights plus 8 per gap, so -8 for no assets. |
| JustifiedLayout.PackRows | src/utils/justifiedLayout.ts:20-39 | After the loop, the closed rows plus the open row form the greedy layout; with no open row, there were no ratios. |
| JustifiedLayout.PackAsset | src/utils/justifiedLayout.ts:21-38 | One turn of the loop keeps the packing invariant: it either closes the open row (justified) and starts a new one, or extends the open row. |
| JustifiedLayout.GreedyLayoutIsUnique | src/utils/justifiedLayout.ts:20-43 | Any row list that meets the packing rules is `GreedyLayout`, so the rules determine the layout completely. |
| JustifiedLayout.ClosedRowHeight | src/utils/justifiedLayout.ts:26-29 | A closed row is at least 280 high exactly when its natural width fits the container, and always when it holds more than one asset. |
| JustifiedLayout.JustifiedUnique | src/utils/justifiedLayout.ts:27-29 | For a given set of positive ratios, only one height justifies the row. |
| JustifiedLayout.RowsPackedMeansChained | src/utils/justifiedLayout.ts:26-37 | Rows built by appending are well formed and chained: each row's indices follow on from the previous row's. |
| JustifiedLayout.CalculateBucketHeight | src/utils/justifiedLayout.ts:50-59 | The bucket height is `BucketHeight`: 90 for no ratios, otherwise 90 + the layout's total height at padding 80 + 40. |
| JustifiedLayout.BucketHeightOneRow | src/utils/justifiedLayout.ts:50-59 | When all ratios fit one row, the layout is that single row of height 280, and the bucket is 410 high. |
| Grouping.GroupAssetsByDay | src/api/immich.ts:26-47 | The loop over the day map, then the sort and the mapping of entries, yields exactly `GroupsByDay`. |
| Grouping.RecordAsset | src/api/immich.ts:29-35 | One turn of the loop keeps the day map equal to the input's days, in first-seen order, each mapped to its assets in input order. |
| Grouping.EntriesAreGroups | src/api/immich.ts:37-44 | Listing the finished map's entries in sorted key order gives the groups by day. |
| Grouping.GroupsByDayDescending | src/api/immich.ts:38 | Group keys are strictly descending, so no day appears twice. |
| Grouping.GroupsByDayPartition | src/api/immich.ts:26-44 | Every asset is in some group. A group holds exactly the assets of its day, in input order. No group is empty, each count equals the number of the group's assets, and each label is the label of the day. |
| Grouping.GroupsByDayDisjoint | src/api/immich.ts:26-44 | No asset is in two groups. |
| Grouping.SumCountsGroupsByDay | src/api/immich.ts:43 | The group counts add up to the number of assets grouped. |
| Grouping.SortDescending | src/api/immich.ts:38 | Sorting distinct keys with the reversed comparison gives a strictly descending list. |
| Grouping.Sort | src/api/immich.ts:38 | The sort keeps the length and the set of keys. |
| Grouping.DescendingUnique | src/api/immich.ts:38 | Two descending lists with the same keys are equal, so the sorted order is unique. |
| Grouping.DayKeys | src/api/immich.ts:29-35 | The map's keys are distinct and are exactly the days some asset falls on. |
| Grouping.Filter | src/api/immich.ts:91 | `filter` keeps exactly the elements that pass, and is no longer than its input. |
| Grouping.FilterCommutes | src/api/immich.ts:90-95 | Filtering by two conditions gives the same list in either order. |
| Immich.Transform | src/api/immich.ts:49-70 | There is one record per id. Record i carries id i, and has the fixed shape: the device asset id is the id; the modified and updated times are the creation time; there are no tags; images are `image/jpeg` and videos `video/mp4`. |
| Immich.TransformOfColumns | src/api/immich.ts:49-70 | Records of that shape are rebuilt exactly from their columns. |
| Immich.ColumnsOfTransform | src/api/immich.ts:49-70 | Columns of equal length are recovered exactly from the records, so the transform loses nothing it reads. |
| Immich.BucketMetadata | src/api/immich.ts:77-80 | The ids are returned as they are. The ratio column is returned when present; otherwise a ratio of 1 per id, which the layout accepts as positive. |
| Immich.Or | src/api/immich.ts:97-98 | `o \|\| d`: a positive value is kept; absent or 0 falls back to `d`. |
| Immich.Slice | src/api/immich.ts:98 | `slice` clamps both bounds to the length: it is the inner window when both are inside, runs to the end when the end is past it, and is empty when the end does not exceed the start. |
| Immich.FilterByFlags | src/api/immich.ts:89-95 | An asset is kept exactly when it is in the input and passes the favourite and archived filters that are set. |
| Immich.GetAssets | src/api/immich.ts:82-99 | The result is the `[skip, skip + take)` window of the filtered assets of the ten most recent buckets, with take 500 when not positive. It is at most `take` long. |
| Immich.FilteredWindow | src/api/immich.ts:89-98 | Every asset in a window of the filtered assets comes from the fetched assets and matches the filters that are set. |
| Immich.ApplyFilter | src/api/immich.ts:138-145 | Each kept group holds only passing assets, has a count equal to its length and is not empty; there are no more groups than before. |
| Immich.ApplyFilterMembers | src/api/immich.ts:138-145 | A group is in the result exactly when it is an input group with only its passing assets, recounted, with the same key and label, and at least one asset passed. |
| Immich.Refiltered | src/api/immich.ts:140-143 | One group keeps only its passing assets and is recounted; its key and label stay. Its effect on the groups is given by `ApplyFilterMembers`. |
| Immich.RefilteredGroup | src/api/immich.ts:140-143 | Filtering the group of a day gives the group of that day among the passing assets. |
| Immich.ApplyFilterGroupsByDay | src/api/immich.ts:136-152 | Filtering the groups equals grouping the filtered assets. |
| Immich.GetGroupedAssets | src/api/immich.ts:130-155 | The groups are the groups by day of the filtered assets of the ten most recent buckets, and the total is the number of those assets. |
| Immich.GetGroupedAssetsPage | src/api/immich.ts:157-176 | The page is `PageOf` the server's bucket list, with skip 0 and take 5 by default (0 counts as absent). |
| Immich.GetGroupedAssetsPageWithBuckets | src/api/immich.ts:178-195 | The page is `PageOf` the given bucket list, with take 3 (`BUCKETS_PER_PAGE`) by default. |
| Immich.BuildPage | src/api/immich.ts:163-175 | The shared page body equals `PageOf`; the non-empty filter removes nothing. |
| Immich.PageFacts | src/api/immich.ts:168-174 | `hasMore` holds exactly when there is a next cursor, which happens exactly when `skip + take` is less than the number of buckets, and the cursor is then `skip + take`. The total is the sum of the counts, and every asset comes from a bucket inside the window. |
| Immich.FetchAllAppend | src/api/immich.ts:164-165 | Fetching two bucket lists gives the assets of the first, then those of the second. |
| Immich.FetchAll | src/api/immich.ts:164-165 | The assets of each bucket asked for, bucket after bucket (`Promise.all(...).flat()`); its meaning is given by `FetchAllAppend`, `FetchAllFrom` and `FetchAllReaches`. |
| Immich.FetchAllFrom | src/api/immich.ts:164-165 | Every fetched asset comes from one of the buckets asked for. |
| Immich.FetchAllReaches | src/api/immich.ts:164-165 | Every asset of a bucket asked for is fetched. |
| QueryConfig.Retry | src/hooks/queryConfig.ts:12-16 | An API error with status 401 is never retried; any other error is retried exactly when fewer than two failures came before. |
| QueryConfig.Attempts | src/hooks/queryConfig.ts:12-16 | How many times the query library runs a query that keeps failing with the same error, asking `Retry` after each failure; its values are given by `AttemptsTotal`. |
| QueryConfig.AttemptsTotal | src/hooks/queryConfig.ts:12-16 | A query that always fails runs once on a 401 and three times otherwise. |
| QueryConfig.NetworkErrorRetried | src/utils/typeGuards.ts:8-10 | An API error without a status fails the type guard, so it is retried like any other failure. |
| UseAssets.QueryAssets | src/hooks/useAssets.ts:5-15 | The query function fails with "API client not available" exactly when the query is not enabled (no client). Otherwise it returns the first 500 assets, in timeline order, of the ten most recent buckets: this is `getAssets({take: 500})`. |
| UseAssets.Enabled | src/hooks/useAssets.ts:12 | A query is enabled exactly when a client exists. |
| UseAssets.QueryPage | src/hooks/useAssets.ts:29-41 | With no client the query function fails; otherwise it returns the page of 3 buckets that starts at the cursor. |
| UseAssets.NextPageParam | src/hooks/useAssets.ts:38 | The next cursor is the page's `nextCursor` while `hasMore` holds; otherwise there is no next page. |
| UseAssets.NextPageParamOfPage | src/hooks/useAssets.ts:34-38 | After the page at a cursor, the next cursor is 3 further on while buckets remain; otherwise there is none. |
| UseAssets.PageCursorsStep | src/hooks/useAssets.ts:32-38 | Each cursor the timeline requests is 3 after the previous one, and only the last leaves no bucket after its page. |
| UseAssets.PageCursorsFollowNextPageParam | src/hooks/useAssets.ts:38 | After the page at any listed cursor, `getNextPageParam` gives the next listed cursor, or nothing after the last one. |
| UseAssets.PagesCoverBuckets | src/hooks/useAssets.ts:32-38 | From any cursor, the pages requested cover every later bucket once, in order. |
| UseAssets.PageCursorsAt | src/hooks/useAssets.ts:32-38 | The k-th cursor requested is the starting cursor plus 3k. |
| UseAssets.AllPagesFetchEverything | src/hooks/useAssets.ts:32-38 | Starting at cursor 0, all the pages together hold exactly the assets of every bucket. |
| UseAssets.TenBuckets | src/hooks/useAssets.ts:32-38 | With ten buckets the cursors are 0, 3, 6 and 9, and after the page at 9 there is no next cursor. |
| UseAllAssets.PagesAssets | src/hooks/useAllAssets.ts:8 | The pages' assets in page, group and asset order; its meaning is given by `AppendPage`, `PagesAssetsLength` and `GroupsAssetsMembers`. |
| UseAllAssets.PagesAssetsLength | src/hooks/useAllAssets.ts:8 | When every page's total is the sum of its counts and every count is its group's length, the flat list is as long as the pages' totals added up. |
| UseAllAssets.PageCountsRight | src/api/immich.ts:163-175 | Every page the server builds has a total equal to the sum of its counts, each the length of its group. |
| UseAllAssets.AllAssets | src/hooks/useAllAssets.ts:5-10 | The result is empty without data or pages; otherwise it is the pages' assets in page, group and asset order. |
| UseAllAssets.AppendPage | src/hooks/useAllAssets.ts:8 | Loading a page only appends its assets; every earlier index keeps its asset. |
| UseAllAssets.GroupsAssetsLength | src/hooks/useAllAssets.ts:8 | When every count is right, the flat list is as long as the sum of the counts. |
| UseAllAssets.GroupsAssetsMembers | src/hooks/useAllAssets.ts:8 | An asset is in the flat list exactly when a loaded group holds it. |
| UseAllAssets.PageAddsItsTotal | src/hooks/useAllAssets.ts:8 | Each timeline page adds as many assets as its `totalAssets`. |
| MainPanel.FindIndex | src/views/MainPanel.tsx:35 | `findIndex`: the first index whose id matches, or -1 exactly when no asset has that id. |
| MainPanel.Navigate | src/views/MainPanel.tsx:52-59 | Navigating with no viewer state leaves none, and the open flag is kept. |
| MainPanel.NavigateStaysInRange | src/views/MainPanel.tsx:54-57 | With an index inside a non-empty list, prev goes to max(0, i-1) and next to min(len-1, i+1), so the index stays inside. |
| MainPanel.NavigateNextOnEmpty | src/views/MainPanel.tsx:57 | With no assets, next gives index -1, which shows no asset. |
| MainPanel.ShownAsset | src/views/MainPanel.tsx:128-130 | An asset is shown exactly while the viewer is open and its index is inside the list. |
| MainPanel.ShouldFetchNextPage | src/views/MainPanel.tsx:64-68 | The scroll-stop guard: fetch when a next page exists and none is loading; what it means on the timeline is given by `ScrollStopFetchesNextListedPage`. |
| MainPanel.ScrollStopFetchesNextListedPage | src/views/MainPanel.tsx:64-68 | On the timeline walked from cursor 0, stopping the scroll after the page at the k-th cursor, with no page loading, fetches exactly when a later cursor exists, and then asks for that next cursor. So scrolling never asks past the last page. |
| MainPanel.Panel.SelectAsset | src/views/MainPanel.tsx:32-44 | An unknown id changes nothing. Otherwise the viewer opens at the first index with that id, and shows that asset. |
| MainPanel.Panel.CloseViewer | src/views/MainPanel.tsx:46-48 | The viewer state becomes null. |
| MainPanel.Panel.NavigateViewer | src/views/MainPanel.tsx:50-62 | The new viewer state is `Navigate` of the old one over the current list's length. |
| MainPanel.Panel.HandleKey | src/components/MediaViewer/MediaViewer.tsx:25-40 | A key in the open viewer moves the index by one, closes the viewer, or changes nothing, as `KeyAction` decides. |
| MediaViewer.KeyAction | src/components/MediaViewer/MediaViewer.tsx:26-39 | ArrowLeft navigates back exactly when the index is above 0. ArrowRight navigates forward exactly when it is below the last index. Escape closes, and only Escape does. |
| MediaViewer.MediaUrl | src/components/MediaViewer/MediaViewer.tsx:45-48 | There is a URL exactly when there is an asset. |
| MediaViewer.MediaUrlIsBlobUrl | src/components/MediaViewer/MediaViewer.tsx:47-48 | A video shows its original file and anything else the preview thumbnail, each with the URL the client's blob fetch builds for that endpoint. |
| Client.Normalize | src/api/client.ts:20-24 | The normalised URL ends with `/api`. It is the trimmed URL with its trailing slashes dropped, as it stands if that already ends with `/api`, and with `/api` appended otherwise. |
| Client.NormalizeOf | src/api/client.ts:20-21 | The text kept before `/api` is a stretch of the input. Only white space precedes it, and only white space or slashes follow it. It starts with a non-blank character. |
| Client.NewClient | src/api/client.ts:19-28 | The client's base URL ends with `/api`, and it keeps the configuration it was given. |
| Client.NormalizedShape | src/api/client.ts:20-24 | A normalised URL starts with a non-blank character and ends with the `i` of `/api`. |
| Client.NormalizeIdempotent | src/api/client.ts:20-24 | Normalising a normalised URL leaves it unchanged. |
| Client.NormalizeFixed | src/api/client.ts:20-24 | A URL of the normalised shape is its own normalisation. |
| Client.NormalizeDropsTrailingSlash | src/api/client.ts:21-22 | `h/api/` becomes `h/api`. |
| Client.NormalizeCollapsesSlashes | src/api/client.ts:21-23 | `h//` becomes `h/api`. |
| Client.NormalizeTrims | src/api/client.ts:20 | ` h ` becomes `h/api`. |
| Client.Headers | src/api/client.ts:30-42 | Both JSON headers are always present. The user token header is present exactly for a credentials login with a non-empty token, and the API key header exactly for an API-key login. Never both. |
| Client.MediaAuthParam | src/api/client.ts:44-46 | A credentials login gives `sessionKey` with its token, or `''` without one; an API-key login gives `apiKey` with its key. |
| Client.WithParam | src/api/client.ts:77 | The parameter is joined with `&` when the URL already has a `?`, and with `?` otherwise. |
| Client.BlobUrl | src/api/client.ts:74-77 | The URL is the base URL and endpoint, then one separator (`&` when the URL already has a `?`, `?` otherwise), then the media authentication parameter. |
| Client.ThumbnailUrl | src/api/client.ts:87-90 | The thumbnail URL with its size and the media authentication parameter; `ThumbnailUrlIsBlobUrl` shows it is the blob-fetch URL of its endpoint. |
| Client.AssetUrl | src/api/client.ts:92-95 | The original-file URL with the media authentication parameter; `AssetUrlIsBlobUrl` shows it is the blob-fetch URL of its endpoint. |
| Client.ThumbnailUrlIsBlobUrl | src/api/client.ts:87-90 | The thumbnail URL is the blob-fetch URL of the thumbnail endpoint with its size. |
| Client.AssetUrlIsBlobUrl | src/api/client.ts:92-95 | The original-file URL is the blob-fetch URL of the original endpoint when the base URL and the id hold no `?`. |
| Storage.ReadAuth | src/utils/storage.ts:18-37 | A configuration is read exactly when the entry is an object with a non-empty base URL and method, so a returned configuration always has a method. |
| Storage.EntriesAfterRead | src/utils/storage.ts:19-41 | Reading leaves a missing, empty or valid entry in place and removes any other. |
| Storage.Store.GetAuthConfig | src/utils/storage.ts:18-43 | The result is `ReadAuth` of the entries before the call, and the entries become `EntriesAfterRead`. |
| Storage.Store.SetAuthConfig | src/utils/storage.ts:45-47 | Only the auth entry changes; it becomes the encoded configuration. |
| Storage.Store.ClearAuthConfig | src/utils/storage.ts:49-51 | Only the auth entry changes; it is removed. |
| Storage.Store.GetLastViewedIndex | src/utils/storage.ts:54-57 | The result is `ReadIndex`: 0 when the entry is missing or empty, otherwise `parseInt` of it. |
| Storage.Store.SetLastViewedIndex | src/utils/storage.ts:59-61 | Only the index entry changes; it becomes the decimal text of the index. |
| Storage.ReadAfterSet | src/utils/storage.ts:18-47 | A configuration saved with a base URL and a method is read back unchanged, and reading removes nothing. |
| Storage.ReadInvalidSet | src/utils/storage.ts:26-30 | A configuration saved without a base URL or a method reads as none, and reading removes it. |
| Storage.ReadAfterClear | src/utils/storage.ts:49-51 | After clearing there is no configuration, and reading changes nothing. |
| Storage.ReadUnparsable | src/utils/storage.ts:38-41 | Non-empty text that is not a JSON object reads as none and is removed. |
| Storage.ReadTwice | src/utils/storage.ts:18-43 | A second read gives the same answer as the first and removes nothing more. |
| Storage.IndexAfterSet | src/utils/storage.ts:54-61 | A saved index, of any sign, is read back. |
| Storage.KeysIndependent | src/utils/storage.ts:3-6 | Writing, clearing or reading the auth entry leaves the index alone, and writing the index leaves the auth entry and its read alone. |
| UseAuth.StoredConfigToAuthConfig | src/hooks/useAuth.ts:175-191 | The base URL is kept. A credentials method gives a credentials configuration with the e-mail and token copied and an empty password; any other method gives an API-key configuration with the key copied. |
| UseAuth.WithoutPassword | src/hooks/useAuth.ts:99-104 | The password is forgotten and everything else is kept. |
| UseAuth.Saved | src/hooks/useAuth.ts:99-104 | What a login saves keeps the base URL and marks the method. A credentials login keeps its e-mail and token and has no API key; an API-key login keeps its key and has no e-mail or token. No password is saved. |
| UseAuth.ConvertSaved | src/hooks/useAuth.ts:99-106 | Converting what a login saves gives back its configuration without the password. |
| UseAuth.SaveConverted | src/hooks/useAuth.ts:175-191 | A stored configuration of the shape a login saves is saved unchanged after a conversion. |
| UseAuth.CredentialsIgnorePassword | src/hooks/useAuth.ts:89 | The headers and the media parameter do not depend on the password. |
| UseAuth.LoginClientMatchesSaved | src/hooks/useAuth.ts:94-107 | The client built at login stands for the configuration the login saves. |
| UseAuth.Session.constructor | src/hooks/useAuth.ts:9-12 | Nothing is held, nobody is authenticated, a check is pending, and the invariant holds. |
| UseAuth.Session.Mount | src/hooks/useAuth.ts:15-23 | The saved configuration is read (and an invalid one cleared). Without one, the check ends. With one, it is held and checked: the session is authenticated when the method is not credentials or the token is valid, and then it holds the client built from the stored configuration. |
| UseAuth.Session.ValidateAndSetup | src/hooks/useAuth.ts:25-66 | The check always ends. A credentials configuration with an invalid token leaves the session unauthenticated with no client; otherwise it is authenticated with a client built from the converted configuration. |
| UseAuth.Session.SignIn | src/hooks/useAuth.ts:106-108 | Once the configuration is saved, the session holds it without the password, is authenticated, holds the client of the full configuration, and keeps its invariant. |
| UseAuth.Session.LoginWithCredentials | src/hooks/useAuth.ts:68-116 | The answer is true exactly when the server returned a token. Then the configuration without the password is saved and held, and the session is authenticated with its client. On failure nothing is saved and the session is unchanged. The check always ends. |
| UseAuth.Session.LoginWithApiKey | src/hooks/useAuth.ts:118-154 | Always true: the configuration is saved and held, and the session is authenticated with its client. The check ends. |
| UseAuth.Session.Logout | src/hooks/useAuth.ts:156-161 | The saved configuration is removed, the configuration and the client are dropped, and nobody is authenticated. |
| UseAuth.LoginSurvivesRestart | src/hooks/useAuth.ts:99-106 | After a login with a base URL, the next start reads back the saved configuration. |
| UseAuth.LogoutSurvivesRestart | src/hooks/useAuth.ts:156-161 | After logout, the next start finds no configuration. |
| Formatters.FormatDuration | src/utils/formatters.ts:5-17 | The text is empty exactly when the input has fewer than two colon-separated pieces. |
| Formatters.FormatWellFormed | src/utils/formatters.ts:5-17 | For a duration of digit fields `H:M:S.f`, the text is built from the fields' values, with the fraction of a second dropped. |
| Formatters.DurationTextShape | src/utils/formatters.ts:13-16 | With hours the text is `H:MM:SS`, otherwise `M:SS`; a two-digit field is padded to two places only below 10. |
| Formatters.FiveThirty | src/utils/formatters.ts:11 | `00:05:30.123` is shown as `5:30`. |
| Formatters.OneHour | src/utils/formatters.ts:13-14 | `01:02:03.000` is shown as `1:02:03`. |
| Formatters.TwoFieldsShowNaN | src/utils/formatters.ts:7-11 | An input of two pieces passes the guard but has no seconds: the text is not empty and ends in `NaN`. |
| Formatters.ZeroFiveShowsNaN | src/utils/formatters.ts:7-16 | `0:05` is shown as `5:NaN`. |
| FormattingService.FormatDuration | src/utils/FormattingService.ts:3-14 | The text is empty exactly when the input has fewer than three colon-separated pieces. |
| FormattingService.AgreesWithCardFormatter | src/utils/FormattingService.ts:3-14 | With three or more pieces, it agrees with the card formatter. |
| FormattingService.NoSecondsNoText | src/utils/FormattingService.ts:5 | The two-piece input that the card formatter shows with `NaN` gives no text here. |
| FormattingService.WellFormedIsNumeric | src/utils/FormattingService.ts:3-14 | A well-formed duration is shown with digits, minus signs and colons only, never `NaN`. |
| FormattingService.DurationTextNumeric | src/utils/FormattingService.ts:7-13 | Once every field is a number, the text holds no `NaN`. |
| Strings.JoinSplit | src/utils/formatters.ts:6 | Joining the pieces of `split` on the same separator gives the string back. |
| Strings.SplitJoin | src/utils/formatters.ts:6 | Splitting a join of pieces that contain no separator gives the pieces back. |
| Strings.LexLessTotal | src/api/immich.ts:38 | The key order is total: two different keys are ordered one way or the other. |
| Strings.LexLessTransitive | src/api/immich.ts:38 | The key order is transitive. |
| Strings.ParseIntOfIntToString | src/utils/storage.ts:54-61 | `parseInt` reads back what `toString` writes, for any integer. |
| Strings.ParseIntOfNegative | src/utils/storage.ts:54-61 | `parseInt` of a minus sign followed by digits is the negated value of the digits. |
| Strings.ParseIntOfDigits | src/utils/formatters.ts:9-10 | `parseInt` of digits followed by a non-digit reads the digits, leading zeros included. |
| Strings.FloorParseFloatOfDigits | src/utils/formatters.ts:11 | The floor of `parseFloat` of digits followed by a non-digit is the value of the digits. |
| Strings.TrimStart | src/api/client.ts:20 | `trimStart` drops a prefix made only of white space, and leaves a text that is empty or starts with a non-blank character. |
| Strings.TrimEnd | src/api/client.ts:20 | `trimEnd` drops a suffix made only of white space, and leaves a text that is empty or ends with a non-blank character. |
| Strings.TrimEnds | src/api/client.ts:20 | `trim` leaves a text that starts and ends with a non-blank character. |
| Strings.TrimSlice | src/api/client.ts:20 | `trim` gives a stretch of the input with only white space before and after it. |
| Strings.PadStart | src/utils/formatters.ts:14 | `padStart` gives at least the width and ends with the original text. |

## Left out

- Network I/O and asynchrony. The network is not modelled:
  - the server's answers are values (`Immich.Api` carries the bucket list and each bucket's assets);
  - whether a token is still valid is a parameter;
  - whether a login returned a token is a parameter.

  `APIClient.fetch`, the real fetch in `fetchBlob`, `Promise.all` and the login/validation requests are not modelled. The ping of an API-key login is left out because its outcome is ignored.
- The `catch` branch of `validateAndSetup` (`src/hooks/useAuth.ts:59-62`) is not modelled. Once the network is a parameter, nothing in its `try` block can throw.
- Local time and locale. An asset's day key depends on the time zone, so it is a parameter. The same holds for the label `formatBucketDate` gives a day: it depends on today's date and on the locale. `localeCompare` on `YYYY-MM-DD` keys is plain code-unit lexicographic order.
- Floating point: layout arithmetic is on `real` with positive ratios, with no rounding. The division by zero that ratios of 0 would cause is excluded by the precondition `AllPositive`.
- `parseFloat` is modelled for a sign, digits and a fraction. Exponents and `Infinity` are not modelled, and only the floor of the value is kept, which is all `formatDuration` uses. `parseInt` reads decimal digits after optional white space and sign.
- JSON and `localStorage`. A stored string is either the text of a JSON object with optional string fields, or other text (`PlainText`), which stands for anything that does not parse to an object. The model does not cover JSON fields of other types. It collapses `undefined` and missing fields into one case.
- Storage.Store.GetAuthConfig: the migration branch (`src/utils/storage.ts:33-35`) is kept as written, but it can never run, because the check before it already returned for a missing method.
- Strings.ParseIntOfIntToString and Storage.IndexAfterSet: numbers are unbounded integers. JavaScript writes numbers from 1e21 up in exponent notation, which `parseInt` then reads only up to the exponent; that is not modelled.
- Immich.Slice: negative `skip` or `take` (slicing from the end) is not modelled; counts are natural numbers.
- Immich.Transform: requires every column to be at least as long as `id`. JavaScript would read `undefined` past the end of a shorter column.
- `useGroupedAssets` (`src/hooks/useAssets.ts:17-27`) is not modelled. It is not used by the timeline, and its query function is `Immich.GetGroupedAssets` with `take` 500, which that function ignores.
- The TanStack Query machinery is left out: caching, garbage collection and the retry loop itself. `QueryConfig.Attempts` models how the library applies `Retry`. Stale and GC times are constants.
- Window key listeners and their removal (`src/components/MediaViewer/MediaViewer.tsx:41-42`) are not modelled; `MainPanel.Panel.HandleKey` takes one key at a time.
- React state batching is not modelled; each state cell of the session is a field updated in order.
- The rendering files, the login panel, the application shell and the error handler hold no logic to verify.

## Findings

| source | as written | input that shows it | evidently intended | confidence | as-written member | corrected member |
|---|---|---|---|---|---|---|
| src/utils/formatters.ts:7 | The guard returns `''` only below two pieces, so a two-piece input reaches `parts[2]`, which is undefined, and the seconds become `NaN`. | `0:05` is shown as `5:NaN` | no text unless all three pieces are present, as the same template in `src/utils/FormattingService.ts:5` requires | not executed | Formatters.ZeroFiveShowsNaN | FormattingService.WellFormedIsNumeric |
