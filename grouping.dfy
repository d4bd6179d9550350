/**
  Grouping a flat list of assets into one group per day, newest day first
  (`groupAssetsByDay` of the Immich API wrapper).

  The day of an asset comes from its creation time read in local time; the
  time zone is not modelled, so the day key is a parameter `dayKey` applied
  to `fileCreatedAt`. The label shown for a day is a parameter `formatDate`.
  Day keys are `YYYY-MM-DD` strings compared lexicographically.
 */
module Grouping {
  import opened Strings
  import opened Types

  /** `s.filter(keep)`: the elements that pass, in their order. */
  function Filter<T(!new)>(s: seq<T>, keep: T -> bool): (r: seq<T>)
    ensures |r| <= |s|
    ensures forall x :: x in r <==> x in s && keep(x)
  {
    if s == [] then []
    else
      var rest := Filter(s[..|s| - 1], keep);
      if keep(s[|s| - 1]) then rest + [s[|s| - 1]] else rest
  }

  lemma {:induction false} FilterAppend<T(!new)>(s: seq<T>, t: seq<T>, keep: T -> bool)
    ensures Filter(s + t, keep) == Filter(s, keep) + Filter(t, keep)
    decreases |t|
  {
    if t == [] {
      assert s + t == s;
    } else {
      assert (s + t)[..|s + t| - 1] == s + t[..|t| - 1];
      FilterAppend(s, t[..|t| - 1], keep);
    }
  }

  /** Filtering by two conditions gives the same list in either order. */
  lemma {:induction false} FilterCommutes<T(!new)>(s: seq<T>, p: T -> bool, q: T -> bool)
    ensures Filter(Filter(s, p), q) == Filter(Filter(s, q), p)
  {
    if s != [] {
      var init := s[..|s| - 1];
      var x := s[|s| - 1];
      FilterCommutes(init, p, q);
      FilterAppend(Filter(init, p), [x], q);
      FilterAppend(Filter(init, q), [x], p);
      assert Filter([x], q) == if q(x) then [x] else [] by {
        assert [x][..0] == [];
      }
      assert Filter([x], p) == if p(x) then [x] else [] by {
        assert [x][..0] == [];
      }
    }
  }

  /** Whether an asset belongs to the day `key`. */
  function DayIs(dayKey: string -> string, key: string): Asset -> bool {
    (a: Asset) => dayKey(a.fileCreatedAt) == key
  }

  /** The assets of the day `key`, in input order. */
  function DayFilter(assets: seq<Asset>, dayKey: string -> string, key: string): seq<Asset> {
    Filter(assets, DayIs(dayKey, key))
  }

  predicate Distinct(keys: seq<string>) {
    forall i, j :: 0 <= i < j < |keys| ==> keys[i] != keys[j]
  }

  /** Whether some asset falls on the day `key`. */
  predicate HasDay(assets: seq<Asset>, dayKey: string -> string, key: string) {
    exists a :: a in assets && dayKey(a.fileCreatedAt) == key
  }

  /** The distinct day keys, in the order their first asset appears: the key order of the day map. */
  function DayKeys(assets: seq<Asset>, dayKey: string -> string): (keys: seq<string>)
    ensures Distinct(keys)
    ensures forall k :: k in keys <==> HasDay(assets, dayKey, k)
  {
    if assets == [] then []
    else
      var init := assets[..|assets| - 1];
      var last := assets[|assets| - 1];
      var rest := DayKeys(init, dayKey);
      assert forall a :: a in assets <==> a in init || a == last by {
        assert assets == init + [last];
      }
      if dayKey(last.fileCreatedAt) in rest then rest else rest + [dayKey(last.fileCreatedAt)]
  }

  /** Newest first: each key is lexicographically greater than every later one. */
  predicate Descending(keys: seq<string>) {
    forall i, j :: 0 <= i < j < |keys| ==> LexLess(keys[j], keys[i])
  }

  /** Places `x` into a descending list of keys. */
  function Insert(x: string, keys: seq<string>): (r: seq<string>)
    ensures |r| == |keys| + 1
    ensures forall y :: y in r <==> y == x || y in keys
  {
    if keys == [] || LexLess(keys[0], x) then [x] + keys else [keys[0]] + Insert(x, keys[1..])
  }

  lemma {:induction false} InsertDescending(x: string, keys: seq<string>)
    requires Descending(keys) && x !in keys
    ensures Descending(Insert(x, keys))
  {
    if keys != [] {
      if LexLess(keys[0], x) {
        forall j | 0 < j < |keys|
          ensures LexLess(keys[j], x)
        {
          LexLessTransitive(keys[j], keys[0], x);
        }
      } else {
        InsertDescending(x, keys[1..]);
        LexLessTotal(x, keys[0]);
        var r := Insert(x, keys);
        forall j | 0 < j < |r|
          ensures LexLess(r[j], keys[0])
        {
          assert r[j] in Insert(x, keys[1..]);
        }
      }
    }
  }

  /** `keys.sort((a, b) => b.localeCompare(a))`, as an insertion sort. */
  function Sort(keys: seq<string>): (r: seq<string>)
    ensures |r| == |keys|
    ensures forall y :: y in r <==> y in keys
  {
    if keys == [] then []
    else
      var init := keys[..|keys| - 1];
      assert forall y :: y in keys <==> y in init || y == keys[|keys| - 1] by {
        assert keys == init + [keys[|keys| - 1]];
      }
      Insert(keys[|keys| - 1], Sort(init))
  }

  lemma {:induction false} SortDescending(keys: seq<string>)
    requires Distinct(keys)
    ensures Descending(Sort(keys))
  {
    if keys != [] {
      var init := keys[..|keys| - 1];
      SortDescending(init);
      InsertDescending(keys[|keys| - 1], Sort(init));
    }
  }

  /** Two descending lists with the same elements are the same list. */
  lemma {:induction false} DescendingUnique(s: seq<string>, t: seq<string>)
    requires Descending(s) && Descending(t)
    requires forall y :: y in s <==> y in t
    ensures s == t
  {
    if t != [] {
      assert t[0] in s;
    }
    if s != [] {
      assert s[0] in t;
      if s[0] != t[0] {
        var i :| 0 <= i < |s| && s[i] == t[0];
        var j :| 0 <= j < |t| && t[j] == s[0];
        LexLessTransitive(s[0], t[0], s[0]);
        LexLessIrreflexive(s[0]);
        assert false;
      }
      assert s == [s[0]] + s[1..] && t == [t[0]] + t[1..];
      forall y
        ensures y in s[1..] <==> y in t[1..]
      {
        LexLessIrreflexive(y);
        if y in s[1..] {
          var i :| 1 <= i < |s| && s[i] == y;
          assert y != s[0];
          assert y in t;
        }
        if y in t[1..] {
          var j :| 1 <= j < |t| && t[j] == y;
          assert y != t[0];
          assert y in s;
        }
      }
      DescendingUnique(s[1..], t[1..]);
    }
  }

  /** The group of day `key`: its assets in input order, the label and the count. */
  function MakeGroup(key: string, assets: seq<Asset>, dayKey: string -> string, formatDate: string -> string): GroupedAsset {
    var members := DayFilter(assets, dayKey, key);
    GroupedAsset(key, formatDate(key), members, |members|)
  }

  function GroupsFor(keys: seq<string>, assets: seq<Asset>, dayKey: string -> string, formatDate: string -> string): (groups: seq<GroupedAsset>)
    ensures |groups| == |keys|
    ensures forall j :: 0 <= j < |keys| ==> groups[j] == MakeGroup(keys[j], assets, dayKey, formatDate)
  {
    seq(|keys|, j requires 0 <= j < |keys| => MakeGroup(keys[j], assets, dayKey, formatDate))
  }

  /** The result `groupAssetsByDay` specifies: one group per day present, newest day first. */
  function GroupsByDay(assets: seq<Asset>, dayKey: string -> string, formatDate: string -> string): seq<GroupedAsset> {
    GroupsFor(Sort(DayKeys(assets, dayKey)), assets, dayKey, formatDate)
  }

  predicate KeysDescending(groups: seq<GroupedAsset>) {
    forall i, j :: 0 <= i < j < |groups| ==> LexLess(groups[j].timeBucket, groups[i].timeBucket)
  }

  lemma DayFilterSnoc(assets: seq<Asset>, a: Asset, dayKey: string -> string, key: string)
    ensures DayFilter(assets + [a], dayKey, key) ==
      if dayKey(a.fileCreatedAt) == key then DayFilter(assets, dayKey, key) + [a] else DayFilter(assets, dayKey, key)
  {
    assert (assets + [a])[..|assets|] == assets;
  }

  lemma DayKeysSnoc(assets: seq<Asset>, a: Asset, dayKey: string -> string)
    ensures DayKeys(assets + [a], dayKey) ==
      if dayKey(a.fileCreatedAt) in DayKeys(assets, dayKey) then DayKeys(assets, dayKey) else DayKeys(assets, dayKey) + [dayKey(a.fileCreatedAt)]
  {
    assert (assets + [a])[..|assets|] == assets;
  }

  lemma {:induction false} DayFilterNone(assets: seq<Asset>, dayKey: string -> string, key: string)
    requires !HasDay(assets, dayKey, key)
    ensures DayFilter(assets, dayKey, key) == []
  {
    if assets != [] {
      var init := assets[..|assets| - 1];
      assert forall a :: a in init ==> a in assets;
      DayFilterNone(init, dayKey, key);
      assert assets[|assets| - 1] in assets;
    }
  }

  /** The day map after the first `i` assets: the days met so far in order, each with its assets. */
  ghost predicate DayMapState(assets: seq<Asset>, dayKey: string -> string, i: nat, dayMap: map<string, seq<Asset>>, order: seq<string>) {
    && i <= |assets|
    && order == DayKeys(assets[..i], dayKey)
    && (forall k :: k in dayMap <==> k in order)
    && (forall k :: k in dayMap ==> dayMap[k] == DayFilter(assets[..i], dayKey, k))
  }

  /** One turn of the loop: `dayMap.get(dateKey).push(asset)`, creating the entry first when the day is new. */
  method RecordAsset(assets: seq<Asset>, dayKey: string -> string, i: nat, dayMap: map<string, seq<Asset>>, order: seq<string>)
    returns (dayMap': map<string, seq<Asset>>, order': seq<string>)
    requires i < |assets| && DayMapState(assets, dayKey, i, dayMap, order)
    ensures DayMapState(assets, dayKey, i + 1, dayMap', order')
  {
    var asset := assets[i];
    var dateKey := dayKey(asset.fileCreatedAt);
    assert assets[..i + 1] == assets[..i] + [asset];
    DayKeysSnoc(assets[..i], asset, dayKey);
    dayMap', order' := dayMap, order;
    if dateKey !in dayMap' {
      DayFilterNone(assets[..i], dayKey, dateKey);
      dayMap' := dayMap'[dateKey := []];
      order' := order' + [dateKey];
    }
    dayMap' := dayMap'[dateKey := dayMap'[dateKey] + [asset]];
    forall k | k in dayMap'
      ensures dayMap'[k] == DayFilter(assets[..i + 1], dayKey, k)
    {
      DayFilterSnoc(assets[..i], asset, dayKey, k);
    }
  }

  /**
    Builds the day map in one pass, in the order days are first met, then
    lists its entries sorted by key, newest first.
   */
  method GroupAssetsByDay(assets: seq<Asset>, dayKey: string -> string, formatDate: string -> string) returns (groups: seq<GroupedAsset>)
    ensures groups == GroupsByDay(assets, dayKey, formatDate)
  {
    var dayMap: map<string, seq<Asset>> := map[];
    var order: seq<string> := [];
    for i := 0 to |assets|
      invariant DayMapState(assets, dayKey, i, dayMap, order)
    {
      dayMap, order := RecordAsset(assets, dayKey, i, dayMap, order);
    }
    groups := Entries(dayMap, Sort(order), formatDate);
    EntriesAreGroups(assets, dayKey, formatDate, dayMap, order);
  }

  /** `entries.map(([date, groupAssets]) => ...)`: one group per key, with its label and count. */
  function Entries(dayMap: map<string, seq<Asset>>, keys: seq<string>, formatDate: string -> string): (groups: seq<GroupedAsset>)
    requires forall k :: k in keys ==> k in dayMap
    ensures |groups| == |keys|
    ensures forall j :: 0 <= j < |keys| ==> groups[j].timeBucket == keys[j] && groups[j].assets == dayMap[keys[j]]
  {
    seq(|keys|, j requires 0 <= j < |keys| => GroupedAsset(keys[j], formatDate(keys[j]), dayMap[keys[j]], |dayMap[keys[j]]|))
  }

  /** The entries of the completed day map, sorted, are the groups by day. */
  lemma EntriesAreGroups(assets: seq<Asset>, dayKey: string -> string, formatDate: string -> string, dayMap: map<string, seq<Asset>>, order: seq<string>)
    requires DayMapState(assets, dayKey, |assets|, dayMap, order)
    ensures forall k :: k in Sort(order) ==> k in dayMap
    ensures Entries(dayMap, Sort(order), formatDate) == GroupsByDay(assets, dayKey, formatDate)
  {
    assert assets[..|assets|] == assets;
  }

  /** Groups come out strictly descending by day key, so no day appears twice. */
  lemma GroupsByDayDescending(assets: seq<Asset>, dayKey: string -> string, formatDate: string -> string)
    ensures KeysDescending(GroupsByDay(assets, dayKey, formatDate))
  {
    SortDescending(DayKeys(assets, dayKey));
  }

  /**
    The groups partition the input: every asset lies in a group, a group
    holds exactly the assets of its day in input order, no group is empty
    and each count is the number of its assets.
   */
  lemma GroupsByDayPartition(assets: seq<Asset>, dayKey: string -> string, formatDate: string -> string)
    ensures forall a :: a in assets ==> exists g :: g in GroupsByDay(assets, dayKey, formatDate) && a in g.assets
    ensures forall g :: g in GroupsByDay(assets, dayKey, formatDate) ==>
      g.assets == DayFilter(assets, dayKey, g.timeBucket) && g.count == |g.assets| > 0 && g.displayDate == formatDate(g.timeBucket)
    ensures forall g, a :: g in GroupsByDay(assets, dayKey, formatDate) && a in g.assets ==> a in assets && dayKey(a.fileCreatedAt) == g.timeBucket
  {
    var keys := Sort(DayKeys(assets, dayKey));
    var groups := GroupsByDay(assets, dayKey, formatDate);
    forall a | a in assets
      ensures exists g :: g in groups && a in g.assets
    {
      var k := dayKey(a.fileCreatedAt);
      assert k in keys;
      var j :| 0 <= j < |keys| && keys[j] == k;
      assert a in groups[j].assets;
    }
    forall g | g in groups
      ensures g.count == |g.assets| > 0
    {
      var j :| 0 <= j < |groups| && groups[j] == g;
      assert HasDay(assets, dayKey, keys[j]);
      var a :| a in assets && dayKey(a.fileCreatedAt) == keys[j];
      assert a in g.assets;
    }
  }

  /** An asset lies in only one group, since the groups' days differ. */
  lemma GroupsByDayDisjoint(assets: seq<Asset>, dayKey: string -> string, formatDate: string -> string, i: nat, j: nat, a: Asset)
    requires i < j < |GroupsByDay(assets, dayKey, formatDate)|
    ensures !(a in GroupsByDay(assets, dayKey, formatDate)[i].assets && a in GroupsByDay(assets, dayKey, formatDate)[j].assets)
  {
    var groups := GroupsByDay(assets, dayKey, formatDate);
    GroupsByDayDescending(assets, dayKey, formatDate);
    GroupsByDayPartition(assets, dayKey, formatDate);
    assert groups[i] in groups && groups[j] in groups;
    LexLessIrreflexive(groups[i].timeBucket);
  }

  /** The sum of the counts, as `groups.reduce((sum, g) => sum + g.count, 0)`. */
  function SumCounts(groups: seq<GroupedAsset>): nat {
    if groups == [] then 0 else groups[0].count + SumCounts(groups[1..])
  }

  /** How many times `x` occurs in `keys`. */
  function Occurrences(keys: seq<string>, x: string): nat {
    if keys == [] then 0 else (if keys[0] == x then 1 else 0) + Occurrences(keys[1..], x)
  }

  lemma {:induction false} OccurrencesDistinct(keys: seq<string>, x: string)
    requires Distinct(keys)
    ensures Occurrences(keys, x) == if x in keys then 1 else 0
  {
    if keys != [] {
      OccurrencesDistinct(keys[1..], x);
      if keys[0] == x {
        assert x !in keys[1..];
      }
    }
  }

  /** The number of assets in the groups of `keys`. */
  function DaySizes(keys: seq<string>, assets: seq<Asset>, dayKey: string -> string): nat {
    if keys == [] then 0 else |DayFilter(assets, dayKey, keys[0])| + DaySizes(keys[1..], assets, dayKey)
  }

  lemma {:induction false} DaySizesSnoc(keys: seq<string>, assets: seq<Asset>, dayKey: string -> string, a: Asset)
    ensures DaySizes(keys, assets + [a], dayKey) == DaySizes(keys, assets, dayKey) + Occurrences(keys, dayKey(a.fileCreatedAt))
  {
    if keys != [] {
      DaySizesSnoc(keys[1..], assets, dayKey, a);
      assert (assets + [a])[..|assets|] == assets;
    }
  }

  lemma {:induction false} DaySizesEmpty(keys: seq<string>, dayKey: string -> string)
    ensures DaySizes(keys, [], dayKey) == 0
  {
    if keys != [] {
      DaySizesEmpty(keys[1..], dayKey);
    }
  }

  /** Distinct keys covering every day of the assets count every asset once. */
  lemma {:induction false} DaySizesCover(keys: seq<string>, assets: seq<Asset>, dayKey: string -> string)
    requires Distinct(keys)
    requires forall a :: a in assets ==> dayKey(a.fileCreatedAt) in keys
    ensures DaySizes(keys, assets, dayKey) == |assets|
  {
    if assets == [] {
      DaySizesEmpty(keys, dayKey);
    } else {
      var init := assets[..|assets| - 1];
      var last := assets[|assets| - 1];
      assert assets == init + [last];
      DaySizesCover(keys, init, dayKey);
      DaySizesSnoc(keys, init, dayKey, last);
      OccurrencesDistinct(keys, dayKey(last.fileCreatedAt));
    }
  }

  lemma {:induction false} SumCountsGroupsFor(keys: seq<string>, assets: seq<Asset>, dayKey: string -> string, formatDate: string -> string)
    ensures SumCounts(GroupsFor(keys, assets, dayKey, formatDate)) == DaySizes(keys, assets, dayKey)
  {
    if keys != [] {
      SumCountsGroupsFor(keys[1..], assets, dayKey, formatDate);
      assert GroupsFor(keys, assets, dayKey, formatDate)[1..] == GroupsFor(keys[1..], assets, dayKey, formatDate);
    }
  }

  /** The counts of the groups add up to the number of assets grouped. */
  lemma SumCountsGroupsByDay(assets: seq<Asset>, dayKey: string -> string, formatDate: string -> string)
    ensures SumCounts(GroupsByDay(assets, dayKey, formatDate)) == |assets|
  {
    var keys := Sort(DayKeys(assets, dayKey));
    SortDescending(DayKeys(assets, dayKey));
    forall i, j | 0 <= i < j < |keys|
      ensures keys[i] != keys[j]
    {
      LexLessIrreflexive(keys[i]);
    }
    SumCountsGroupsFor(keys, assets, dayKey, formatDate);
    DaySizesCover(keys, assets, dayKey);
  }
}
