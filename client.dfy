/**
  The HTTP client of the Immich API: the normalised base URL, the
  authentication headers, and the URLs of media that carry their
  credentials as a query parameter, since an image element cannot send
  headers. Sending requests is not modelled.
 */
module Client {
  import opened Wrappers
  import opened Strings
  import opened Types

  /** A client: its normalised base URL and the configuration it authenticates with. */
  datatype ApiClient = ApiClient(baseUrl: string, authConfig: AuthConfig)

  /** How an absent (undefined) string value is written when put in a template or a header. */
  function Render(value: Option<string>): string {
    value.GetOr("undefined")
  }

  /** Trims, drops every trailing slash, and appends `/api` unless the URL already ends with it. */
  function Normalize(url: string): (r: string)
    ensures EndsWith(r, "/api")
    ensures var kept := StripTrailing(Trim(url), '/');
      r == if EndsWith(kept, "/api") then kept else kept + "/api"
  {
    var stripped := StripTrailing(Trim(url), '/');
    if EndsWith(stripped, "/api") then stripped else stripped + "/api"
  }

  /** `kept` is the part of `url` from offset `k` on, with only white space before it and only white space or slashes after it. */
  predicate KeptFrom(url: string, k: nat, kept: string) {
    && k + |kept| <= |url| && kept == url[k..k + |kept|]
    && (forall i :: 0 <= i < k ==> IsJsWhitespace(url[i]))
    && (forall i :: k + |kept| <= i < |url| ==> IsJsWhitespace(url[i]) || url[i] == '/')
  }

  /** Dropping trailing slashes from a trimmed part of `s` leaves a part kept with only white space or slashes around it. */
  lemma PrefixOfStretch(s: string, k: nat, t: string, kept: string)
    requires TrimmedFrom(s, k, t)
    requires |kept| <= |t| && kept == t[..|kept|]
    requires forall j :: |kept| <= j < |t| ==> t[j] == '/'
    ensures KeptFrom(s, k, kept)
  {
    forall i | k + |kept| <= i < |s|
      ensures IsJsWhitespace(s[i]) || s[i] == '/'
    {
      if i < k + |t| {
        assert s[i] == t[i - k];
      }
    }
  }

  /**
    What normalising keeps, for any input: a stretch of the URL with only
    white space before it and only white space or slashes after it, starting
    with a non-blank character (and, by `StripTrailing`, not ending in a
    slash). `Normalize` puts `/api` after it unless it already ends with it.
   */
  lemma NormalizeOf(url: string)
    ensures var kept := StripTrailing(Trim(url), '/');
      && KeptFrom(url, |url| - |TrimStart(url)|, kept)
      && (kept != [] ==> !IsJsWhitespace(kept[0]))
  {
    var t := Trim(url);
    var kept := StripTrailing(t, '/');
    TrimSlice(url);
    PrefixOfStretch(url, |url| - |TrimStart(url)|, t, kept);
    if kept != [] {
      TrimEnds(url);
      assert kept[0] == t[0];
    }
  }

  /** The constructor. */
  function NewClient(config: AuthConfig): (client: ApiClient)
    ensures EndsWith(client.baseUrl, "/api") && client.authConfig == config
  {
    ApiClient(Normalize(config.baseUrl), config)
  }

  lemma TrimKeepsNonBlank(s: string)
    requires Trim(s) != []
    ensures !IsJsWhitespace(Trim(s)[0])
  {
    TrimEnds(s);
  }

  /** A normalised URL starts with a non-blank character and ends with the `i` of `/api`. */
  lemma NormalizedShape(url: string)
    ensures Normalize(url) != [] && !IsJsWhitespace(Normalize(url)[0])
    ensures Normalize(url)[|Normalize(url)| - 1] == 'i'
  {
    var r := Normalize(url);
    var stripped := StripTrailing(Trim(url), '/');
    assert r[|r| - 4..] == "/api";
    assert r[|r| - 1] == r[|r| - 4..][3];
    if stripped != [] {
      TrimKeepsNonBlank(url);
      assert r[0] == stripped[0] == Trim(url)[0];
    } else {
      assert r == "/api";
    }
  }

  /** A URL that already has the normalised shape is left as it is. */
  lemma NormalizeFixed(r: string)
    requires r != [] && !IsJsWhitespace(r[0]) && r[|r| - 1] == 'i' && EndsWith(r, "/api")
    ensures Normalize(r) == r
  {
    TrimFixed(r);
    assert StripTrailing(r, '/') == r;
  }

  /** A normalised URL is normalised already. */
  lemma NormalizeIdempotent(url: string)
    ensures Normalize(Normalize(url)) == Normalize(url)
  {
    NormalizedShape(url);
    NormalizeFixed(Normalize(url));
  }

  /** A trailing slash after `/api` is dropped rather than doubled. */
  lemma NormalizeDropsTrailingSlash()
    ensures Normalize("h/api/") == "h/api"
  {
    assert Trim("h/api/") == "h/api/";
    assert StripTrailing("h/api/", '/') == "h/api" by {
      assert "h/api/"[..5] == "h/api";
    }
    assert EndsWith("h/api", "/api") by {
      assert "h/api"[1..] == "/api";
    }
  }

  /** All trailing slashes are dropped before `/api` is appended. */
  lemma NormalizeCollapsesSlashes()
    ensures Normalize("h//") == "h/api"
  {
    assert Trim("h//") == "h//";
    assert StripTrailing("h//", '/') == "h" by {
      assert "h//"[..2] == "h/";
      assert "h/"[..1] == "h";
    }
  }

  /** Leading and trailing white space is removed. */
  lemma NormalizeTrims()
    ensures Normalize(" h ") == "h/api"
  {
    assert TrimStart(" h ") == "h " by {
      assert " h "[1..] == "h ";
    }
    assert TrimEnd("h ") == "h" by {
      assert "h "[..1] == "h";
    }
  }

  /**
    `getHeaders`: JSON content type, plus the session token for a credentials
    login that has a non-empty token, or the API key for an API-key login.
   */
  function Headers(config: AuthConfig): (h: map<string, string>)
    ensures "Content-Type" in h && h["Content-Type"] == "application/json"
    ensures "Accept" in h && h["Accept"] == "application/json"
    ensures "x-immich-user-token" in h <==> config.UserCredentials? && config.accessToken.Some? && config.accessToken.value != ""
    ensures "x-immich-user-token" in h ==> h["x-immich-user-token"] == config.accessToken.value
    ensures "x-api-key" in h <==> config.ApiKey?
    ensures "x-api-key" in h ==> h["x-api-key"] == Render(config.apiKey)
    ensures !("x-immich-user-token" in h && "x-api-key" in h)
    ensures |h.Keys| <= 3
  {
    var base := map["Content-Type" := "application/json", "Accept" := "application/json"];
    match config
    case UserCredentials(_, _, _, accessToken) =>
      if accessToken.Some? && accessToken.value != "" then base["x-immich-user-token" := accessToken.value] else base
    case ApiKey(_, apiKey) =>
      base["x-api-key" := Render(apiKey)]
  }

  /** `getMediaAuthParam`: the query parameter that authenticates a media URL. */
  function MediaAuthParam(config: AuthConfig): (p: (string, string))
    ensures config.UserCredentials? ==> p.0 == "sessionKey" && p.1 == config.accessToken.GetOr("")
    ensures config.ApiKey? ==> p.0 == "apiKey" && p.1 == Render(config.apiKey)
  {
    match config
    case UserCredentials(_, _, _, accessToken) => ("sessionKey", accessToken.GetOr(""))
    case ApiKey(_, apiKey) => ("apiKey", Render(apiKey))
  }

  /** Adds `name=value` to a URL, after `&` when it already has a query and after `?` otherwise. */
  function WithParam(url: string, name: string, value: string): (r: string)
    ensures Contains(url, '?') ==> r == url + "&" + name + "=" + value
    ensures !Contains(url, '?') ==> r == url + "?" + name + "=" + value
  {
    if Contains(url, '?') then url + "&" + name + "=" + value else url + "?" + name + "=" + value
  }

  /** The URL `fetchBlob` requests for an endpoint. */
  function BlobUrl(client: ApiClient, endpoint: string): (r: string)
    ensures var url := client.baseUrl + endpoint;
      var param := MediaAuthParam(client.authConfig).0 + "=" + MediaAuthParam(client.authConfig).1;
      && |r| == |url| + 1 + |param|
      && r[..|url|] == url
      && r[|url|] == (if Contains(url, '?') then '&' else '?')
      && r[|url| + 1..] == param
  {
    var (name, value) := MediaAuthParam(client.authConfig);
    WithParam(client.baseUrl + endpoint, name, value)
  }

  datatype ThumbnailSize = Preview | Thumbnail

  function SizeName(size: ThumbnailSize): string {
    match size
    case Preview => "preview"
    case Thumbnail => "thumbnail"
  }

  /** `getThumbnailUrl`; callers that give no size get `Thumbnail`. */
  function ThumbnailUrl(client: ApiClient, assetId: string, size: ThumbnailSize): string {
    var (name, value) := MediaAuthParam(client.authConfig);
    client.baseUrl + "/assets/" + assetId + "/thumbnail?size=" + SizeName(size) + "&" + name + "=" + value
  }

  /** `getAssetUrl`: the original file. */
  function AssetUrl(client: ApiClient, assetId: string): string {
    var (name, value) := MediaAuthParam(client.authConfig);
    client.baseUrl + "/assets/" + assetId + "/original?" + name + "=" + value
  }

  /** A thumbnail URL is the URL `fetchBlob` would request for the thumbnail endpoint. */
  lemma ThumbnailUrlIsBlobUrl(client: ApiClient, assetId: string, size: ThumbnailSize)
    ensures ThumbnailUrl(client, assetId, size) == BlobUrl(client, "/assets/" + assetId + "/thumbnail?size=" + SizeName(size))
  {
    var url := client.baseUrl + ("/assets/" + assetId + "/thumbnail?size=" + SizeName(size));
    var i := |client.baseUrl + "/assets/" + assetId + "/thumbnail"|;
    assert url[i] == '?';
  }

  /** An original-file URL is the URL `fetchBlob` would request, when the base URL and the id hold no `?`. */
  lemma AssetUrlIsBlobUrl(client: ApiClient, assetId: string)
    requires !Contains(client.baseUrl, '?') && !Contains(assetId, '?')
    ensures AssetUrl(client, assetId) == BlobUrl(client, "/assets/" + assetId + "/original")
  {
    var url := client.baseUrl + ("/assets/" + assetId + "/original");
    assert url == client.baseUrl + "/assets/" + assetId + "/original";
    forall i | 0 <= i < |url|
      ensures url[i] != '?'
    {
      if i < |client.baseUrl| {
        assert url[i] == client.baseUrl[i];
      } else if i < |client.baseUrl| + 8 {
        assert url[i] == "/assets/"[i - |client.baseUrl|];
      } else if i < |client.baseUrl| + 8 + |assetId| {
        assert url[i] == assetId[i - |client.baseUrl| - 8];
      } else {
        assert url[i] == "/original"[i - |client.baseUrl| - 8 - |assetId|];
      }
    }
  }
}
