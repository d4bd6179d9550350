/**
  The browser's key-value store as the client uses it: the saved login
  configuration, checked when it is read back, and the index of the last
  viewed asset.

  A stored string is modelled by what parsing it yields: a JSON object,
  whose fields may be missing, or any other text (which does not parse, or
  parses to something that is not an object). JSON values that are not
  strings are not modelled.
 */
module Storage {
  import opened Wrappers
  import opened Strings

  const AuthConfigKey: string := "immich_auth_config"
  const LastViewedIndexKey: string := "immich_last_viewed_index"

  const UserCredentialsMethod: string := "USER_CREDENTIALS"
  const ApiKeyMethod: string := "API_KEY"

  /** The saved login configuration; the password is never part of it. */
  datatype StoredAuthConfig = StoredAuthConfig(baseUrl: string, authMethod: string, apiKey: Option<string>, email: Option<string>, accessToken: Option<string>)

  /** A JSON object read back from the store: any field may be missing. */
  datatype JsonObject = JsonObject(baseUrl: Option<string>, authMethod: Option<string>, apiKey: Option<string>, email: Option<string>, accessToken: Option<string>)

  /** A stored string: the text of a JSON object, or any other text. */
  datatype StoredValue = ObjectText(obj: JsonObject) | PlainText(text: string)

  /** JavaScript truthiness of an optional string: present and not empty. */
  predicate Truthy(o: Option<string>) {
    o.Some? && o.value != ""
  }

  /** `JSON.stringify` of a configuration; fields left undefined are left out. */
  function Encode(config: StoredAuthConfig): StoredValue {
    ObjectText(JsonObject(Some(config.baseUrl), Some(config.authMethod), config.apiKey, config.email, config.accessToken))
  }

  /** Whether the auth entry is missing or empty, which reads as no configuration without clearing anything. */
  predicate AuthEntryBlank(entries: map<string, StoredValue>) {
    AuthConfigKey !in entries || entries[AuthConfigKey] == PlainText("")
  }

  /** Whether the auth entry holds an object with a non-empty base URL and method. */
  predicate AuthEntryValid(entries: map<string, StoredValue>) {
    && AuthConfigKey in entries && entries[AuthConfigKey].ObjectText?
    && Truthy(entries[AuthConfigKey].obj.baseUrl) && Truthy(entries[AuthConfigKey].obj.authMethod)
  }

  /** The configuration `getAuthConfig` returns for these entries. */
  function ReadAuth(entries: map<string, StoredValue>): (r: Option<StoredAuthConfig>)
    ensures r.Some? <==> AuthEntryValid(entries)
    ensures r.Some? ==> r.value.baseUrl != "" && r.value.authMethod != ""
  {
    if AuthEntryValid(entries) then
      var obj := entries[AuthConfigKey].obj;
      Some(StoredAuthConfig(obj.baseUrl.value, obj.authMethod.value, obj.apiKey, obj.email, obj.accessToken))
    else None
  }

  /** The entries after `getAuthConfig`: an entry that is present, not empty and not valid is removed. */
  function EntriesAfterRead(entries: map<string, StoredValue>): (r: map<string, StoredValue>)
    ensures AuthEntryBlank(entries) || AuthEntryValid(entries) ==> r == entries
    ensures !AuthEntryBlank(entries) && !AuthEntryValid(entries) ==> r == entries - {AuthConfigKey}
  {
    if AuthEntryBlank(entries) || AuthEntryValid(entries) then entries else entries - {AuthConfigKey}
  }

  /** The index `getLastViewedIndex` returns: 0 when missing or empty, otherwise `parseInt`, None standing for NaN. */
  function ReadIndex(entries: map<string, StoredValue>): Option<int> {
    if LastViewedIndexKey !in entries then Some(0)
    else match entries[LastViewedIndexKey]
      case PlainText(text) => if text == "" then Some(0) else ParseInt(text)
      case ObjectText(_) => None
  }

  /** A configuration with a base URL and a method is read back as it was saved, and nothing is removed. */
  lemma ReadAfterSet(entries: map<string, StoredValue>, config: StoredAuthConfig)
    requires config.baseUrl != "" && config.authMethod != ""
    ensures ReadAuth(entries[AuthConfigKey := Encode(config)]) == Some(config)
    ensures EntriesAfterRead(entries[AuthConfigKey := Encode(config)]) == entries[AuthConfigKey := Encode(config)]
  {
  }

  /** A configuration saved without a base URL or a method reads as none, and reading removes it. */
  lemma ReadInvalidSet(entries: map<string, StoredValue>, config: StoredAuthConfig)
    requires config.baseUrl == "" || config.authMethod == ""
    ensures ReadAuth(entries[AuthConfigKey := Encode(config)]).None?
    ensures EntriesAfterRead(entries[AuthConfigKey := Encode(config)]) == entries - {AuthConfigKey}
  {
    var e := entries[AuthConfigKey := Encode(config)];
    assert e - {AuthConfigKey} == entries - {AuthConfigKey};
  }

  /** After clearing, there is no configuration, and reading changes nothing. */
  lemma ReadAfterClear(entries: map<string, StoredValue>)
    ensures ReadAuth(entries - {AuthConfigKey}).None?
    ensures EntriesAfterRead(entries - {AuthConfigKey}) == entries - {AuthConfigKey}
  {
  }

  /** Text that is not a JSON object reads as none and is removed. */
  lemma ReadUnparsable(entries: map<string, StoredValue>, text: string)
    requires text != ""
    ensures ReadAuth(entries[AuthConfigKey := PlainText(text)]).None?
    ensures EntriesAfterRead(entries[AuthConfigKey := PlainText(text)]) == entries - {AuthConfigKey}
  {
    var e := entries[AuthConfigKey := PlainText(text)];
    assert e - {AuthConfigKey} == entries - {AuthConfigKey};
  }

  /** Reading twice gives the same answer as reading once, and removes nothing more. */
  lemma ReadTwice(entries: map<string, StoredValue>)
    ensures ReadAuth(EntriesAfterRead(entries)) == ReadAuth(entries)
    ensures EntriesAfterRead(EntriesAfterRead(entries)) == EntriesAfterRead(entries)
  {
  }

  /** A saved index is read back. */
  lemma IndexAfterSet(entries: map<string, StoredValue>, index: int)
    ensures ReadIndex(entries[LastViewedIndexKey := PlainText(IntToString(index))]) == Some(index)
  {
    ParseIntOfIntToString(index);
    if index < 0 {
      assert IntToString(index)[0] == '-';
    } else {
      assert IntToString(index) != "";
    }
  }

  /** The two keys are independent: changing the auth entry leaves the index, and the other way round. */
  lemma KeysIndependent(entries: map<string, StoredValue>, v: StoredValue)
    ensures ReadIndex(entries[AuthConfigKey := v]) == ReadIndex(entries)
    ensures ReadIndex(entries - {AuthConfigKey}) == ReadIndex(entries)
    ensures ReadIndex(EntriesAfterRead(entries)) == ReadIndex(entries)
    ensures ReadAuth(entries[LastViewedIndexKey := v]) == ReadAuth(entries)
    ensures EntriesAfterRead(entries[LastViewedIndexKey := v]) == EntriesAfterRead(entries)[LastViewedIndexKey := v]
  {
    assert AuthConfigKey != LastViewedIndexKey;
    var e := entries[LastViewedIndexKey := v];
    if !AuthEntryBlank(entries) && !AuthEntryValid(entries) {
      assert e - {AuthConfigKey} == (entries - {AuthConfigKey})[LastViewedIndexKey := v];
    }
  }

  /** The store, one entry per key. */
  class Store {
    var entries: map<string, StoredValue>

    constructor(initial: map<string, StoredValue>)
      ensures entries == initial
    {
      entries := initial;
    }

    /**
      `getAuthConfig`: no configuration for a missing or empty entry; an entry
      that is not an object, or lacks a base URL or a method, is removed and
      reads as none; otherwise the object read.
     */
    method GetAuthConfig() returns (r: Option<StoredAuthConfig>)
      modifies this
      ensures r == ReadAuth(old(entries))
      ensures entries == EntriesAfterRead(old(entries))
    {
      if AuthConfigKey !in entries || entries[AuthConfigKey] == PlainText("") {
        return None;
      }
      var stored := entries[AuthConfigKey];
      if stored.PlainText? {
        ClearAuthConfig();
        return None;
      }
      var config := stored.obj;
      if !Truthy(config.baseUrl) || !Truthy(config.authMethod) {
        ClearAuthConfig();
        return None;
      }
      if !Truthy(config.authMethod) && Truthy(config.apiKey) {
        config := config.(authMethod := Some(ApiKeyMethod));
      }
      r := Some(StoredAuthConfig(config.baseUrl.value, config.authMethod.value, config.apiKey, config.email, config.accessToken));
    }

    /** `setAuthConfig`. */
    method SetAuthConfig(config: StoredAuthConfig)
      modifies this
      ensures entries == old(entries)[AuthConfigKey := Encode(config)]
    {
      entries := entries[AuthConfigKey := Encode(config)];
    }

    /** `clearAuthConfig`. */
    method ClearAuthConfig()
      modifies this
      ensures entries == old(entries) - {AuthConfigKey}
    {
      entries := entries - {AuthConfigKey};
    }

    /** `getLastViewedIndex`. */
    method GetLastViewedIndex() returns (r: Option<int>)
      ensures r == ReadIndex(entries)
      ensures LastViewedIndexKey !in entries ==> r == Some(0)
    {
      if LastViewedIndexKey !in entries {
        return Some(0);
      }
      var stored := entries[LastViewedIndexKey];
      if stored == PlainText("") {
        return Some(0);
      }
      match stored
      case PlainText(text) => r := ParseInt(text);
      case ObjectText(_) => r := None;
    }

    /** `setLastViewedIndex`: the index as decimal text. */
    method SetLastViewedIndex(index: int)
      modifies this
      ensures entries == old(entries)[LastViewedIndexKey := PlainText(IntToString(index))]
    {
      entries := entries[LastViewedIndexKey := PlainText(IntToString(index))];
    }
  }
}
