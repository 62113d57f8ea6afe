/**
 * The in-memory playlist registry: `playlists_data` (file name -> name, URL, time of the last
 * update; a Python dict, so its keys keep insertion order), `last_playlist`, and the playlist
 * combo box built from it. Which files exist on disk is a set of names passed in; timestamps
 * are integers.
 */
module Registry {
  import opened Wrappers
  import opened PyStr

  /** `PLAYLIST_UPDATE_INTERVAL`: a day in seconds. */
  const UpdateInterval: int := 86400

  /** One record of `playlists_data`: its optional keys `name`, `url` and `last_updated`. */
  datatype Entry = Entry(name: Option<string>, url: Option<string>, lastUpdated: Option<int>)

  /** The stored JSON document: the playlists in their stored order and `last_playlist`. */
  datatype Stored = Stored(order: seq<string>, playlists: map<string, Entry>, lastPlaylist: Option<string>)

  predicate Distinct<T(==)>(s: seq<T>) {
    forall i, j :: 0 <= i < j < |s| ==> s[i] != s[j]
  }

  /** `order` lists the keys of `data`, each once. */
  predicate Ordered(order: seq<string>, data: map<string, Entry>) {
    Distinct(order) && (forall f :: f in order ==> f in data) && (forall f :: f in data ==> f in order)
  }

  /** `data[f].get('name', f)`. */
  function DisplayOf(data: map<string, Entry>, f: string): string
    requires f in data
  {
    data[f].name.GetOr(f)
  }

  // ---------------------------------------------------------------------------
  // Lookups

  /** Position of the first key, in dict order, whose display name is `name`; `|files|` if none. */
  function IndexNamed(files: seq<string>, data: map<string, Entry>, name: string): (k: nat)
    requires forall f :: f in files ==> f in data
    ensures k <= |files|
    ensures forall j :: 0 <= j < k ==> DisplayOf(data, files[j]) != name
    ensures k < |files| ==> DisplayOf(data, files[k]) == name
    decreases |files|
  {
    if files == [] then 0
    else if DisplayOf(data, files[0]) == name then 0
    else 1 + IndexNamed(files[1..], data, name)
  }

  /** `_find_playlist_file_by_display_name`. */
  function FileByDisplayName(files: seq<string>, data: map<string, Entry>, name: string): (r: Option<string>)
    requires forall f :: f in files ==> f in data
    ensures name == "" ==> r.None?
    ensures name != "" && r.None? ==> forall f :: f in files ==> DisplayOf(data, f) != name
    ensures r.Some? ==> r.value in data && DisplayOf(data, r.value) == name
  {
    if name == "" then None
    else
      var k := IndexNamed(files, data, name);
      if k == |files| then
        assert forall f :: f in files ==> DisplayOf(data, f) != name by {
          forall f | f in files ensures DisplayOf(data, f) != name {
            var j :| 0 <= j < |files| && files[j] == f;
          }
        }
        None
      else Some(files[k])
  }

  /** `_find_playlist_display_name`. */
  function DisplayName(data: map<string, Entry>, file: string): (r: string)
    ensures file in data ==> r == DisplayOf(data, file)
    ensures file !in data ==> r == Basename(file)
  {
    if file in data then DisplayOf(data, file) else Basename(file)
  }

  /** With display names told apart, looking a registered file up by its display name finds it. */
  lemma {:induction false} DisplayNameRoundTrip(files: seq<string>, data: map<string, Entry>, f: string)
    requires Ordered(files, data)
    requires forall g, h :: g in data && h in data && g != h ==> DisplayOf(data, g) != DisplayOf(data, h)
    requires f in data && DisplayName(data, f) != ""
    ensures FileByDisplayName(files, data, DisplayName(data, f)) == Some(f)
  {
    var r := FileByDisplayName(files, data, DisplayName(data, f));
    assert f in files;
    assert r.Some?;
  }

  /** Two playlists sharing a display name: only the earlier one can be found by it. */
  lemma SharedNamePicksEarlier(files: seq<string>, data: map<string, Entry>, i: nat, j: nat)
    requires Ordered(files, data)
    requires i < j < |files| && DisplayOf(data, files[i]) == DisplayOf(data, files[j]) != ""
    ensures FileByDisplayName(files, data, DisplayOf(data, files[j])) != Some(files[j])
  {
    var k := IndexNamed(files, data, DisplayOf(data, files[j]));
    assert k <= i;
  }

  /** `_update_playlist_controls`: the refresh button is enabled for a registered URL playlist. */
  function CanRefresh(data: map<string, Entry>, file: Option<string>): bool {
    Truthy(file) && file.value in data && data[file.value].url.Some?
  }

  /** A playlist is due for an update: it has a URL and its last update (0 if never) is more
      than a day before `now`. */
  predicate IsStale(e: Entry, now: int) {
    e.url.Some? && now - e.lastUpdated.GetOr(0) > UpdateInterval
  }

  /** The refresh button is offered for exactly the playlists the start-up check would update
      at some time. */
  lemma RefreshIffEventuallyStale(data: map<string, Entry>, f: string)
    requires f != ""
    ensures CanRefresh(data, Some(f)) <==> f in data && exists now :: IsStale(data[f], now)
  {
    if CanRefresh(data, Some(f)) {
      var now := data[f].lastUpdated.GetOr(0) + UpdateInterval + 1;
      assert IsStale(data[f], now);
    }
  }

  /** A playlist registered without a URL, as a local one is, never gets the refresh button,
      whatever name selects it. */
  lemma LocalNeverRefreshable(files: seq<string>, data: map<string, Entry>, f: string, e: Entry, name: string)
    requires e.url.None? && Ordered(files, data[f := e])
    requires FileByDisplayName(files, data[f := e], name) == Some(f)
    ensures !CanRefresh(data[f := e], FileByDisplayName(files, data[f := e], name))
  {
  }

  /** The selection loop of `check_and_update_playlists_on_startup`, in dict order. */
  function Stale(files: seq<string>, data: map<string, Entry>, now: int): (r: seq<string>)
    requires forall f :: f in files ==> f in data
    ensures forall f :: f in r <==> f in files && IsStale(data[f], now)
    ensures |r| <= |files|
    decreases |files|
  {
    if files == [] then []
    else
      var rest := Stale(files[..|files| - 1], data, now);
      var f := files[|files| - 1];
      if IsStale(data[f], now) then rest + [f] else rest
  }

  /** A playlist just downloaded or refreshed at time `t` is not due again for a day. */
  lemma FreshlyUpdatedNotStale(files: seq<string>, data: map<string, Entry>, f: string, name: Option<string>,
                               url: string, t: int, now: int)
    requires forall g :: g in files ==> g in data
    requires f in files && now <= t + UpdateInterval
    ensures f !in Stale(files, data[f := Entry(name, Some(url), Some(t))], now)
  {
  }

  /** A URL playlist never refreshed is due as soon as a day has passed since the epoch. */
  lemma NeverUpdatedIsStale(files: seq<string>, data: map<string, Entry>, f: string, now: int)
    requires forall g :: g in files ==> g in data
    requires f in files && data[f].url.Some? && data[f].lastUpdated.None? && now > UpdateInterval
    ensures f in Stale(files, data, now)
  {
  }

  // ---------------------------------------------------------------------------
  // The playlist combo box

  /** The registered files that exist, in dict order: the loop of `update_playlist_list`. */
  function Listed(files: seq<string>, existing: set<string>): (r: seq<string>)
    ensures forall f :: f in r <==> f in files && f in existing
    ensures |r| <= |files|
    decreases |files|
  {
    if files == [] then []
    else
      var rest := Listed(files[..|files| - 1], existing);
      var f := files[|files| - 1];
      if f in existing then rest + [f] else rest
  }

  /** The display names of `files`. */
  function Displays(files: seq<string>, data: map<string, Entry>): (r: seq<string>)
    requires forall f :: f in files ==> f in data
    ensures |r| == |files|
    ensures forall i :: 0 <= i < |files| ==> r[i] == DisplayOf(data, files[i])
    decreases |files|
  {
    if files == [] then [] else Displays(files[..|files| - 1], data) + [DisplayOf(data, files[|files| - 1])]
  }

  /** Position of the first item equal to `text`, or -1: `findText`. */
  function FindText(items: seq<string>, text: string): (k: int)
    ensures -1 <= k < |items|
    ensures k >= 0 ==> items[k] == text && forall j :: 0 <= j < k ==> items[j] != text
    ensures k == -1 ==> forall j :: 0 <= j < |items| ==> items[j] != text
    decreases |items|
  {
    if items == [] then -1
    else if items[0] == text then 0
    else
      var k := FindText(items[1..], text);
      if k == -1 then -1 else k + 1
  }

  /** `setCurrentText(text)` on a non-editable combo box: select the first matching item, if any. */
  function SelectText(items: seq<string>, text: string, current: int): (r: int)
    ensures FindText(items, text) >= 0 ==> r == FindText(items, text)
    ensures FindText(items, text) == -1 ==> r == current
  {
    var k := FindText(items, text);
    if k >= 0 then k else current
  }

  /** The combo box index after `update_playlist_list`: none when empty; otherwise the first item
      showing the last playlist's display name when that playlist is registered, else the first. */
  function ComboSelection(items: seq<string>, data: map<string, Entry>, last: Option<string>): (r: int)
    ensures items == [] ==> r == -1
    ensures items != [] ==> 0 <= r < |items|
    ensures (items != [] && Truthy(last) && last.value in data && DisplayOf(data, last.value) in items)
              ==> items[r] == DisplayOf(data, last.value)
  {
    if items == [] then -1
    else if Truthy(last) && last.value in data then SelectText(items, DisplayOf(data, last.value), 0)
    else 0
  }

  /** `f"{base}_{i}{ext}"`. */
  function NumberedName(base: string, ext: string, i: nat): string {
    base + "_" + NatToString(i) + ext
  }

  /** `f"Плейлист {n}"`. */
  function DefaultName(n: nat): string {
    "Плейлист " + NatToString(n)
  }

  /** The name given to a playlist added from a file: the stripped text, or a default numbered
      after the playlists already registered. */
  function GivenName(text: string, count: nat): (r: string)
    ensures Strip(text) != "" ==> r == Strip(text)
    ensures Strip(text) == "" ==> r == DefaultName(count + 1)
  {
    if Strip(text) != "" then Strip(text) else DefaultName(count + 1)
  }

  /** Different numbers give different file names. */
  lemma NumberedNameInjective(base: string, ext: string, i: nat, j: nat)
    requires NumberedName(base, ext, i) == NumberedName(base, ext, j)
    ensures i == j
  {
    var a, b := NatToString(i), NatToString(j);
    var pre := base + "_";
    assert NumberedName(base, ext, i) == pre + a + ext;
    assert NumberedName(base, ext, j) == pre + b + ext;
    assert |a| == |b|;
    assert a == (pre + a + ext)[|pre|..|pre| + |a|];
    assert b == (pre + b + ext)[|pre|..|pre| + |b|];
    NatToStringInjective(i, j);
  }

  /** The numbered names for 1 to `n`. */
  ghost function Numbered(base: string, ext: string, n: nat): set<string> {
    if n == 0 then {} else Numbered(base, ext, n - 1) + {NumberedName(base, ext, n)}
  }

  lemma {:induction false} NumberedCard(base: string, ext: string, n: nat)
    ensures |Numbered(base, ext, n)| == n
  {
    if n > 0 {
      NumberedCard(base, ext, n - 1);
      NumberedAbove(base, ext, n - 1, n);
    }
  }

  lemma {:induction false} NumberedAbove(base: string, ext: string, n: nat, m: nat)
    requires m > n
    ensures NumberedName(base, ext, m) !in Numbered(base, ext, n)
  {
    if n > 0 {
      NumberedAbove(base, ext, n - 1, m);
      if NumberedName(base, ext, m) == NumberedName(base, ext, n) {
        NumberedNameInjective(base, ext, m, n);
      }
    }
  }

  /** `name` is the numbered name with the least `i >= 1` not taken by an existing file. */
  predicate LeastFree(base: string, ext: string, existing: set<string>, i: nat, name: string) {
    i >= 1 && name == NumberedName(base, ext, i) && name !in existing
    && forall j :: 1 <= j < i ==> NumberedName(base, ext, j) in existing
  }

  /** The unique-name loops of `load_playlist_from_file` and `on_playlist_downloaded`: the least
      `i >= 1` whose numbered name is not an existing file. */
  method UniqueIndex(base: string, ext: string, existing: set<string>) returns (i: nat, name: string)
    ensures LeastFree(base, ext, existing, i, name)
  {
    i := 1;
    name := NumberedName(base, ext, i);
    while name in existing
      invariant i >= 1 && name == NumberedName(base, ext, i)
      invariant forall j :: 1 <= j < i ==> NumberedName(base, ext, j) in existing
      invariant Numbered(base, ext, i - 1) <= existing
      invariant i - 1 <= |existing|
      decreases |existing| - (i - 1)
    {
      assert Numbered(base, ext, i) <= existing;
      NumberedCard(base, ext, i);
      SubsetCard(Numbered(base, ext, i), existing);
      i := i + 1;
      name := NumberedName(base, ext, i);
    }
  }

  /** `list.remove(x)` when `x` may be absent: the first occurrence goes. */
  function RemoveFirst(s: seq<string>, x: string): (r: seq<string>)
    ensures x !in s ==> r == s
    ensures x in s ==> |r| == |s| - 1
    ensures forall y :: y != x ==> multiset(r)[y] == multiset(s)[y]
    decreases |s|
  {
    if s == [] then []
    else if s[0] == x then
      assert s == [s[0]] + s[1..];
      s[1..]
    else
      assert s == [s[0]] + s[1..];
      [s[0]] + RemoveFirst(s[1..], x)
  }

  /** Taking a key out of the order keeps the others, in their order, each once. */
  lemma RemoveKeepsOrdered(files: seq<string>, data: map<string, Entry>, f: string)
    requires Ordered(files, data) && f in data
    ensures Ordered(RemoveFirst(files, f), data - {f})
  {
    var k :| 0 <= k < |files| && files[k] == f;
    RemoveAt(files, k);
    CutOut(files, k);
    var r := files[..k] + files[k + 1..];
    assert RemoveFirst(files, f) == r;
    forall g | g in r ensures g in data - {f} {
      assert g in files && g != f;
    }
    forall g | g in data - {f} ensures g in r {
      assert g in files && g != files[k];
    }
  }

  /** Cutting position `k` out of a sequence without duplicates removes exactly that element. */
  lemma CutOut(s: seq<string>, k: nat)
    requires Distinct(s) && k < |s|
    ensures Distinct(s[..k] + s[k + 1..])
    ensures forall y :: y in s[..k] + s[k + 1..] <==> y in s && y != s[k]
  {
    var r := s[..k] + s[k + 1..];
    assert |r| == |s| - 1;
    assert forall i :: 0 <= i < k ==> r[i] == s[i];
    assert forall i :: k <= i < |r| ==> r[i] == s[i + 1];
    forall y | y in r ensures y in s && y != s[k] {
      var i :| 0 <= i < |r| && r[i] == y;
      if i >= k { assert y == s[i + 1]; }
    }
    forall y | y in s && y != s[k] ensures y in r {
      var m :| 0 <= m < |s| && s[m] == y;
      if m < k { assert r[m] == y; } else { assert r[m - 1] == y; }
    }
  }

  /** In a sequence without duplicates, removing the first occurrence cuts out that position. */
  lemma {:induction false} RemoveAt(s: seq<string>, k: nat)
    requires Distinct(s) && k < |s|
    ensures RemoveFirst(s, s[k]) == s[..k] + s[k + 1..]
    decreases k
  {
    if k > 0 {
      assert s[0] != s[k];
      RemoveAt(s[1..], k - 1);
      assert s[1..][k - 1] == s[k];
      assert s[..k] == [s[0]] + s[1..][..k - 1];
      assert s[k + 1..] == s[1..][k..];
    }
  }

  // ---------------------------------------------------------------------------
  // The registry, in place

  class Playlists {
    /** The keys of `playlists_data` in insertion order, and the records. */
    var files: seq<string>
    var data: map<string, Entry>
    var lastPlaylist: Option<string>
    /** `playlist_files`, and the combo box's items and current index (-1 when empty). */
    var playlistFiles: seq<string>
    var comboItems: seq<string>
    var comboIndex: int

    ghost predicate Valid()
      reads this
    {
      Ordered(files, data)
    }

    constructor ()
      ensures Valid() && files == [] && data == map[] && lastPlaylist == None
      ensures playlistFiles == [] && comboItems == [] && comboIndex == -1
    {
      files, data, lastPlaylist := [], map[], None;
      playlistFiles, comboItems, comboIndex := [], [], -1;
    }

    /** `load_playlists_data`: the stored document, or an empty registry when the file is missing
        or unreadable (`None`). */
    method LoadPlaylistsData(stored: Option<Stored>)
      requires stored.Some? ==> Ordered(stored.value.order, stored.value.playlists)
      modifies this
      ensures Valid()
      ensures stored.None? ==> files == [] && data == map[] && lastPlaylist == None
      ensures stored.Some? ==> files == stored.value.order && data == stored.value.playlists
                               && lastPlaylist == stored.value.lastPlaylist
      ensures playlistFiles == old(playlistFiles) && comboItems == old(comboItems) && comboIndex == old(comboIndex)
    {
      if stored.None? {
        files, data, lastPlaylist := [], map[], None;
      } else {
        files, data, lastPlaylist := stored.value.order, stored.value.playlists, stored.value.lastPlaylist;
      }
    }

    /** `playlists_data[key] = entry`: an existing key keeps its place, a new one goes last. */
    method Put(key: string, entry: Entry)
      requires Valid()
      modifies this
      ensures Valid()
      ensures data == old(data)[key := entry]
      ensures files == if key in old(data) then old(files) else old(files) + [key]
      ensures lastPlaylist == old(lastPlaylist) && playlistFiles == old(playlistFiles)
      ensures comboItems == old(comboItems) && comboIndex == old(comboIndex)
    {
      if key !in data {
        files := files + [key];
      }
      data := data[key := entry];
    }

    /** `update_playlist_list`: list the registered files that exist, then select the last
        playlist's name, or the first item. */
    method UpdatePlaylistList(existing: set<string>)
      requires Valid()
      modifies this
      ensures Valid()
      ensures playlistFiles == Listed(files, existing)
      ensures comboItems == Displays(playlistFiles, data)
      ensures comboIndex == ComboSelection(comboItems, data, lastPlaylist)
      ensures files == old(files) && data == old(data) && lastPlaylist == old(lastPlaylist)
    {
      var listed: seq<string> := [];
      var items: seq<string> := [];
      var i := 0;
      while i < |files|
        invariant 0 <= i <= |files|
        invariant listed == Listed(files[..i], existing)
        invariant forall f :: f in listed ==> f in data
        invariant items == Displays(listed, data)
      {
        var f := files[i];
        assert files[..i + 1] == files[..i] + [f];
        if f in existing {
          listed := listed + [f];
          items := items + [DisplayOf(data, f)];
        }
        i := i + 1;
      }
      assert files[..i] == files;
      playlistFiles := listed;
      comboItems := items;
      comboIndex := ComboSelection(items, data, lastPlaylist);
    }

    /** The selection of `_load_initial_playlist` after the list is built: nothing without
        playlists; the last playlist when it exists, else the first listed one. */
    method LoadInitialPlaylist(existing: set<string>) returns (target: Option<string>)
      requires Valid()
      modifies this
      ensures Valid() && playlistFiles == Listed(files, existing)
      ensures playlistFiles == [] ==> target.None?
      ensures (playlistFiles != [] && Truthy(lastPlaylist) && lastPlaylist.value in existing)
                ==> target == lastPlaylist
      ensures (playlistFiles != [] && !(Truthy(lastPlaylist) && lastPlaylist.value in existing))
                ==> target == Some(playlistFiles[0])
      ensures target.Some? ==> target.value in existing
      ensures comboItems == Displays(playlistFiles, data)
      ensures target.None? ==> comboIndex == ComboSelection(comboItems, data, lastPlaylist)
      ensures target.Some? ==> comboIndex == SelectText(comboItems, DisplayName(data, target.value),
                                                        ComboSelection(comboItems, data, lastPlaylist))
      ensures target.Some? && target.value in playlistFiles ==>
                0 <= comboIndex < |comboItems| && comboItems[comboIndex] == DisplayName(data, target.value)
      ensures files == old(files) && data == old(data) && lastPlaylist == old(lastPlaylist)
    {
      UpdatePlaylistList(existing);
      if comboItems == [] {
        return None;
      }
      var file := if Truthy(lastPlaylist) && lastPlaylist.value in existing then lastPlaylist.value else playlistFiles[0];
      var k := FindText(comboItems, DisplayName(data, file));
      if file in playlistFiles {
        var i :| 0 <= i < |playlistFiles| && playlistFiles[i] == file;
        assert comboItems[i] == DisplayName(data, file);
      }
      if k >= 0 {
        comboIndex := k;
      }
      target := Some(file);
    }

    /** `on_playlist_changed` (once the window is up): the file shown under that name becomes the
        last playlist; the refresh button follows it; the file is loaded when it exists. */
    method OnPlaylistChanged(name: string, existing: set<string>) returns (load: Option<string>, refresh: bool)
      requires Valid()
      modifies this
      ensures Valid() && files == old(files) && data == old(data)
      ensures Truthy(FileByDisplayName(files, data, name)) ==> lastPlaylist == FileByDisplayName(files, data, name)
      ensures !Truthy(FileByDisplayName(files, data, name)) ==> lastPlaylist == old(lastPlaylist)
      ensures name != "" ==> refresh == CanRefresh(data, FileByDisplayName(files, data, name))
      ensures load.Some? <==> (Truthy(FileByDisplayName(files, data, name))
                               && FileByDisplayName(files, data, name).value in existing)
      ensures load.Some? ==> load == FileByDisplayName(files, data, name)
      ensures playlistFiles == old(playlistFiles) && comboItems == old(comboItems) && comboIndex == old(comboIndex)
    {
      if name == "" {
        return None, false;
      }
      var file := FileByDisplayName(files, data, name);
      if Truthy(file) {
        lastPlaylist := file;
      }
      refresh := CanRefresh(data, file);
      load := if Truthy(file) && file.value in existing then file else None;
    }

    /** `on_delete_playlist_clicked`: the record of the selected playlist goes (its file stays on
        disk) once confirmed, and the list is rebuilt. */
    method DeleteSelected(name: string, confirmed: bool, existing: set<string>) returns (deleted: Option<string>)
      requires Valid()
      modifies this
      ensures Valid()
      ensures deleted.Some? <==> Truthy(FileByDisplayName(old(files), old(data), name)) && confirmed
      ensures deleted.None? ==> files == old(files) && data == old(data) && playlistFiles == old(playlistFiles)
                                && comboItems == old(comboItems) && comboIndex == old(comboIndex)
      ensures deleted.Some? ==> deleted == FileByDisplayName(old(files), old(data), name)
                                && data == old(data) - {deleted.value}
                                && files == RemoveFirst(old(files), deleted.value)
                                && playlistFiles == Listed(files, existing)
                                && comboItems == Displays(playlistFiles, data)
                                && comboIndex == ComboSelection(comboItems, data, lastPlaylist)
      ensures lastPlaylist == old(lastPlaylist)
    {
      if name == "" {
        return None;
      }
      var file := FileByDisplayName(files, data, name);
      if !Truthy(file) || !confirmed {
        return None;
      }
      var f := file.value;
      RemoveKeepsOrdered(files, data, f);
      data := data - {f};
      files := RemoveFirst(files, f);
      playlistFiles := RemoveFirst(playlistFiles, f);
      UpdatePlaylistList(existing);
      deleted := Some(f);
    }

    /** `update_playlist_list` followed by `setCurrentText(text)`. */
    method UpdateSelecting(onDisk: set<string>, text: string)
      requires Valid()
      modifies this
      ensures Valid()
      ensures playlistFiles == Listed(files, onDisk) && comboItems == Displays(playlistFiles, data)
      ensures comboIndex == SelectText(comboItems, text, ComboSelection(comboItems, data, lastPlaylist))
      ensures files == old(files) && data == old(data) && lastPlaylist == old(lastPlaylist)
    {
      UpdatePlaylistList(onDisk);
      comboIndex := SelectText(comboItems, text, comboIndex);
    }

    /** `load_playlist_from_file`: copy the chosen file under the least free numbered name,
        register it under the given or a default name, rebuild the list and select it. Nothing
        happens without a chosen file or when the copy fails. The source then loads the added
        file into the channel index, which the caller does with `Index.Load`. */
    method AddLocal(path: string, nameText: string, existing: set<string>, copied: bool, now: int)
      returns (added: Option<string>, index: nat)
      requires Valid()
      modifies this
      ensures Valid()
      ensures added.None? <==> path == "" || !copied
      ensures added.None? ==> files == old(files) && data == old(data) && playlistFiles == old(playlistFiles)
                              && comboItems == old(comboItems) && comboIndex == old(comboIndex)
      ensures added.Some? ==>
        var split := SplitExt(Basename(path));
        && LeastFree(split.0, split.1, existing, index, added.value)
        && data == old(data)[added.value := Entry(Some(GivenName(nameText, |old(data)|)), None, Some(now))]
        && files == (if added.value in old(data) then old(files) else old(files) + [added.value])
        && playlistFiles == Listed(files, existing + {added.value})
        && comboItems == Displays(playlistFiles, data)
        && comboIndex == SelectText(comboItems, GivenName(nameText, |old(data)|),
                                    ComboSelection(comboItems, data, lastPlaylist))
      ensures lastPlaylist == old(lastPlaylist)
    {
      if path == "" {
        return None, 0;
      }
      var name := GivenName(nameText, |data|);
      var split := SplitExt(Basename(path));
      var file;
      index, file := UniqueIndex(split.0, split.1, existing);
      if !copied {
        return None, index;
      }
      Put(file, Entry(Some(name), None, Some(now)));
      UpdateSelecting(existing + {file}, name);
      added := Some(file);
    }

    /** `on_playlist_downloaded` after a successful download: rename it to the least free
        `playlist_<i>.m3u`, register it with its URL, and rebuild the list. Returns the new file,
        which the source then loads into the channel index; the caller does that with `Index.Load`. */
    method AddDownloaded(url: string, pendingName: Option<string>, existing: set<string>, now: int)
      returns (file: string, index: nat)
      requires Valid()
      modifies this
      ensures Valid()
      ensures file !in existing
      ensures LeastFree("playlist", ".m3u", existing, index, file)
      ensures url != "" ==> data == old(data)[file := Entry(
                                Some(if Truthy(pendingName) then pendingName.value else DefaultName(index)),
                                Some(url), Some(now))]
      ensures url == "" ==> data == old(data)
      ensures files == (if url != "" && file !in old(data) then old(files) + [file] else old(files))
      ensures playlistFiles == Listed(files, existing - {"downloaded.m3u"} + {file})
      ensures comboItems == Displays(playlistFiles, data)
      ensures comboIndex == ComboSelection(comboItems, data, lastPlaylist)
      ensures lastPlaylist == old(lastPlaylist)
    {
      index, file := UniqueIndex("playlist", ".m3u", existing);
      var onDisk := existing - {"downloaded.m3u"} + {file};
      playlistFiles := playlistFiles + [file];
      if url != "" {
        var display := if Truthy(pendingName) then pendingName.value else DefaultName(index);
        Put(file, Entry(Some(display), Some(url), Some(now)));
      }
      UpdatePlaylistList(onDisk);
    }

    /** `on_playlist_updated`: on success the record's timestamp is renewed and the playlist is
        reloaded when it is the one selected; a name missing from the registry ends the handler
        with a `KeyError` at the display-name lookup. */
    method OnPlaylistUpdated(file: string, success: bool, selected: string, now: int)
      returns (reload: bool, keyError: bool)
      requires Valid()
      modifies this
      ensures Valid() && files == old(files) && lastPlaylist == old(lastPlaylist)
      ensures !success ==> data == old(data) && !reload && !keyError
      ensures success && file !in old(data) ==> data == old(data) && !reload && keyError
      ensures success && file in old(data) ==>
                data == old(data)[file := old(data)[file].(lastUpdated := Some(now))]
                && !keyError && (reload <==> selected == DisplayOf(old(data), file))
      ensures playlistFiles == old(playlistFiles) && comboItems == old(comboItems) && comboIndex == old(comboIndex)
    {
      if !success {
        return false, false;
      }
      if file !in data {
        return false, true;
      }
      data := data[file := data[file].(lastUpdated := Some(now))];
      reload := selected == DisplayOf(data, file);
      keyError := false;
    }

    /** The playlists `check_and_update_playlists_on_startup` offers to refresh. */
    function NeedsUpdate(now: int): (r: seq<string>)
      reads this
      requires Valid()
      ensures forall f :: f in r <==> f in data && IsStale(data[f], now)
    {
      Stale(files, data, now)
    }
  }
}
