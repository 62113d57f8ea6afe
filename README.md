# IPTV player core, modelled in Dafny

`main_mpv.py` is a desktop IPTV player. It reads M3U playlists and builds a channel list
grouped by category, which the user can filter by category and search text. Channel logos
are fetched in the background, with a bounded number of fetches in flight. Playlists are kept
in a registry that maps file names to a display name, an optional source URL and the time of
the last update. This project models the logic under the widgets, and proves that this model
keeps the promises its code makes.

Modules:

- `Wrappers`: `Option`, Python truthiness of an optional string, and the size of a subset.
- `PyStr`: the Python string operations the code depends on. These are `find` (with its `-1`),
  `in`, `startswith`, `strip()` over the `isspace` set, `lower()`, `os.path.basename` and
  `splitext` with the Windows separators (no drive handling), and `str(n)`.
- `PySort`: Python's ordering of strings, and `sorted()` over a dict's keys as a selection
  loop.
- `M3u`:
  - `Channel` and its dict form;
  - `validate_m3u` and `parse_m3u_line`;
  - the line loop of `load_playlist`, as a fold (`Scan`) over the lines read so far;
  - the declarative category index (`CategoryIndex`) that the loop maintains.
- `ChannelIndex`:
  - the class holding `channels`, `categories`, the category combo box and the playing
    channel;
  - the imperative load loop, proved to build exactly `CategoryIndex` of the fold;
  - `update_categories`, `filter_channels`, `play_channel` and `stop_playback`.
- `Icons`:
  - the icon cache, the fetches in flight, the download queue and the statistics, as pure
    transitions on a state record;
  - the `IconManager` class, whose methods mutate the same fields in place and are proved equal
    to those transitions.
- `Registry`: the `playlists_data` dict, with its keys in insertion order, and `last_playlist`,
  `playlist_files` and the playlist combo box. It covers the lookups, the unique-name loops, add,
  delete, timestamp refresh, list rebuilding and the start-up choices.

Inputs the program takes from its environment are parameters. These are:

- whether a file exists, and which files exist;
- the lines of a playlist file;
- the text of the search box and of the name field;
- the outcome of a copy, a download or an image decode;
- the current time, as an integer.

## Model

| member | source | states |
|---|---|---|
| M3u.FromDict | main_mpv.py:158-166 | definition; properties in `ChannelRoundTrip`, `ChannelDefaults` and `DictRoundTrip` |
| M3u.ToDict | main_mpv.py:168-175 | definition; properties in `ChannelRoundTrip` and `DictRoundTrip` |
| M3u.ChannelRoundTrip | main_mpv.py:158-175 | `from_dict(to_dict(c)) == c` for every channel, and `to_dict` writes strings for name, url and group |
| M3u.ChannelDefaults | main_mpv.py:159-166 | an empty dict gives name `''`, url `''`, group "Без категории" and no logo |
| M3u.DictRoundTrip | main_mpv.py:159-175 | a dict with exactly the four keys, holding strings where the dataclass has strings, survives `to_dict(from_dict(d))` |
| M3u.ValidateM3u | main_mpv.py:179-181 | content is valid iff it is non-empty and contains `#EXTM3U` or `#EXTINF` |
| M3u.ValidateIsMarkerTest | main_mpv.py:179-181 | the emptiness test is implied: valid iff either marker occurs |
| M3u.Attribute | main_mpv.py:192-201 | an attribute is present iff its marker occurs in the text before the comma |
| M3u.AttributeClosed | main_mpv.py:193-196 | when a `"` follows the first marker, the value is the quote-free text from just after the marker up to that next `"` |
| M3u.AttributeUnclosed | main_mpv.py:193-196 | when no `"` follows the first marker, `find` returns -1 and the value is the rest of the text minus its last character |
| M3u.UnclosedAttributeDropsLastChar | main_mpv.py:194-196 | a value with no closing quote loses its final character |
| M3u.FirstComma | main_mpv.py:189-190 | the split point is the first comma, or -1 iff there is none |
| M3u.ParseLine | main_mpv.py:183-203 | definition of `parse_m3u_line`; properties in `NoCommaNoInfo`, `CommaSplits`, `SplitsAtFirstComma`, `AttributeClosed` and `AttributeUnclosed` |
| M3u.NoCommaNoInfo | main_mpv.py:185-203 | a line without a comma gives (None, None, None) |
| M3u.CommaSplits | main_mpv.py:189-203 | a line with a comma splits at its first comma: the name is the stripped text after it, and group and logo are the attributes of the text before it |
| M3u.SplitsAtFirstComma | main_mpv.py:189-201 | for any comma-free head, `ParseLine(head + "," + tail)` has name `Strip(tail)` and the attributes of `head` |
| M3u.NoMarkerInPrefix | main_mpv.py:193-194 | no group marker starts inside a quote-free prefix placed before the marker |
| M3u.MarkerFoundAfterPrefix | main_mpv.py:194 | `find` locates the group marker right after a quote-free prefix |
| M3u.CommaInGroupTitle | main_mpv.py:189-196 | when the comma closes an unterminated `group-title="…`, the group becomes that text minus its last character, and the rest is the name |
| M3u.Step | main_mpv.py:834-856 | definition of one loop pass; properties in `StepNoise`, `InfoReplacesPending`, `UrlWithoutNameIsDropped` and `StepUrl` |
| M3u.Scan | main_mpv.py:830-856 | definition of the loop as a fold; properties in `ScanSnoc`, `NoiseIsIgnored`, `EntriesAllEmitted` and `ScanGroupsConsistent` |
| M3u.ScanSnoc | main_mpv.py:833-856 | reading one more line is one step of the loop |
| M3u.InfoIsComment | main_mpv.py:838-840 | an `#EXTINF` line is never taken as a URL |
| M3u.StepNoise | main_mpv.py:834-840 | a blank line or a non-`#EXTINF` comment leaves the loop state as it was |
| M3u.NoiseSnoc | main_mpv.py:834-840 | one such line at the end of the input leaves the loop state as it was |
| M3u.NoisePrefix | main_mpv.py:834-840 | every prefix of a run of such lines leaves the loop state as it was |
| M3u.NoiseIsIgnored | main_mpv.py:834-840 | any run of such lines changes neither the pending entry nor the channels |
| M3u.InfoReplacesPending | main_mpv.py:838-839 | an `#EXTINF` line replaces the pending name, group and logo with its parse |
| M3u.UrlWithoutNameIsDropped | main_mpv.py:840 | a URL line with no pending name, or an empty one, emits nothing |
| M3u.StepUrl | main_mpv.py:840-856 | a URL line after a named entry emits a channel with that URL, uses "Без категории" when there is no group, and resets the pending entry |
| M3u.EntryEmits | main_mpv.py:838-856 | an info line followed by a URL line appends exactly one channel |
| M3u.EntriesAllEmitted | main_mpv.py:833-856 | a playlist of n well-formed pairs yields exactly n channels, in order, and leaves nothing pending |
| M3u.Channels | main_mpv.py:848 | `channels` holds the emitted channels in order |
| M3u.CategoryIndex | main_mpv.py:828 | "Все каналы" is always a key |
| M3u.OutsideKeysEmpty | main_mpv.py:851-854 | a name that no emitted channel uses as its group gets no list |
| M3u.AllIsKey | main_mpv.py:828 | "Все каналы" is among the keys of every index |
| M3u.ListSnoc | main_mpv.py:848-854 | emitting a channel appends it to "Все каналы" and to its truthy group's list, and adds that group as a key |
| M3u.Insert | main_mpv.py:849-854 | definition of the loop's appends to `categories`; proved to keep the declarative index in `IndexStep` |
| M3u.IndexStepAt | main_mpv.py:849-854 | one step of the loop's in-place update agrees with the declarative index at every key |
| M3u.IndexStep | main_mpv.py:849-854 | the in-place update equals the declarative index of the longer channel list |
| M3u.AllListIsChannels | main_mpv.py:848-849 | when no group is literally "Все каналы", that list equals `channels` |
| M3u.ListShape | main_mpv.py:849-854 | each key's list has as many entries as channels in that group. "Все каналы" has all channels plus those whose group is literally "Все каналы", which are appended twice |
| M3u.ListHomogeneous | main_mpv.py:851-854 | every channel in a group's list carries that group |
| M3u.KeysAreGroups | main_mpv.py:851-853 | every key other than "Все каналы" is the group of some channel |
| M3u.ScanGroupsConsistent | main_mpv.py:841-846 | every emitted channel's group field is its parsed group, or "Без категории" when that is empty or absent |
| M3u.UngroupedChannel | main_mpv.py:844-854 | a channel without a group is labelled "Без категории", and no list other than "Все каналы" and "Без категории" holds an equal channel value (another channel with the same fields may carry that group-title) |
| M3u.ListAppend | main_mpv.py:848-854 | the lists and keys of a concatenation of emissions are built from its two parts |
| M3u.UngroupedSingle | main_mpv.py:851-854 | one emission without a group adds no key and lies only in "Все каналы" |
| M3u.UngroupedOnlyInAll | main_mpv.py:841-854 | taking out one emission without a truthy group changes no key and no list other than "Все каналы": that channel was appended only there |
| PyStr.StartsWith | main_mpv.py:838-840 | definition of `startswith` |
| PyStr.Contains | main_mpv.py:193-198 | `sub in s` holds iff `sub` occurs in `s` |
| PyStr.Slice | main_mpv.py:196-201 | `s[start:stop]`: the plain slice within bounds; a stop of -1 drops the last character; a start past the end gives "" |
| PyStr.Strip | main_mpv.py:834 | definition of `strip()`; property in `StripSpec` |
| PyStr.Find | main_mpv.py:194-195 | `find` gives the first occurrence at or after the start, or -1 iff there is none |
| PyStr.StripSpec | main_mpv.py:834 | the stripped text is the input minus its leading and trailing whitespace |
| PyStr.Lower | main_mpv.py:897-899 | lowercasing maps each character and keeps the length |
| PyStr.Basename | main_mpv.py:1679 | the result is the longest separator-free suffix of the path |
| PyStr.SplitExt | main_mpv.py:1680 | base plus extension is the name. The extension is empty or a dot followed by dot-free text, and a non-empty extension leaves a base holding some character other than a dot |
| PyStr.NatToString | main_mpv.py:1684 | `str(n)` for a natural: at least one character, every one a decimal digit, the last one `n % 10`; injective by `NatToStringInjective` |
| PyStr.NatToStringInjective | main_mpv.py:1684 | different numbers print differently |
| PySort.LessTransitive | main_mpv.py:879 | string order is transitive |
| PySort.LessTotal | main_mpv.py:879 | any two different strings are ordered |
| PySort.SortedKeys | main_mpv.py:879 | `sorted()` returns the keys in strictly increasing order, each exactly once |
| PySort.SortedUnique | main_mpv.py:879 | there is only one such order, so every correct sort agrees with it |
| ChannelIndex.Select | main_mpv.py:899 | the result holds each channel as often as the list does when its lowercased name contains the query, and otherwise not at all |
| ChannelIndex.SelectIsSubsequence | main_mpv.py:899 | the selected channels keep the order they have in the list |
| ChannelIndex.Filter | main_mpv.py:890-899 | an empty or unknown category shows nothing. An empty search shows the category's list unchanged. Otherwise the list is narrowed by the lowercased search text |
| ChannelIndex.SelectEmptyQuery | main_mpv.py:898-899 | an empty query keeps the whole list |
| ChannelIndex.SelectIdempotent | main_mpv.py:899 | filtering twice by the same text equals filtering once |
| ChannelIndex.ShowAllAfterLoad | main_mpv.py:859-899 | after a load, "Все каналы" with no search shows every channel in file order (when no group is literally "Все каналы") |
| ChannelIndex.FirstNamed | main_mpv.py:932 | `next(...)` finds nothing iff no channel has the name, and otherwise the earliest one that does |
| ChannelIndex.FirstNamedPicksEarliest | main_mpv.py:932 | a channel sharing its name with an earlier one is never the one played |
| ChannelIndex.SelectedCategory | main_mpv.py:879-882 | definition of the category the combo box shows after it is refilled; properties in `SelectedIsKey` and `Index.UpdateCategories` |
| ChannelIndex.SelectedIsKey | main_mpv.py:878-882 | with the combo box holding the keys, the selected category is a key whenever there is one. After a load it is "Все каналы" (see `Index.Load`) |
| ChannelIndex.AllIsNotForcedFirst | main_mpv.py:879-882 | plain sorting puts "News" before "Все каналы", and the selection is still "Все каналы" |
| ChannelIndex.Index.constructor | main_mpv.py:434-438 | the fields start empty, with only "Все каналы" as a key, and satisfy the invariant |
| ChannelIndex.Index.UpdateCategories | main_mpv.py:876-882 | the combo items are the keys, strictly sorted, each once, and the selection is as above |
| ChannelIndex.Index.Load | main_mpv.py:817-859 | a missing file changes nothing. Otherwise `channels` and `categories` are exactly those of the fold over the lines, the items are sorted, and "Все каналы" is selected. When reading the file raises a decoding error, the fold covers only the lines consumed before it and the category box is left as it was |
| ChannelIndex.Index.Parse | main_mpv.py:832-856 | from empty lists, the loop leaves `channels` and `categories` equal to those of the fold over its lines |
| ChannelIndex.Index.ParseOne | main_mpv.py:834-856 | one pass of the loop body is one `Step` of the fold |
| ChannelIndex.Index.Append | main_mpv.py:848-854 | appending a channel keeps both lists equal to the declarative index |
| ChannelIndex.Index.AddToCategories | main_mpv.py:849-854 | the channel is appended to "Все каналы" and, when its group is truthy, to that group's list, which is created on first use; this is the update `Insert` describes |
| ChannelIndex.Index.ClearChannels | main_mpv.py:1292-1296 | with no playlist left, the lists are empty and only "Все каналы" is offered and selected |
| ChannelIndex.Index.Shown | main_mpv.py:884-899 | every channel shown belongs to the selected category |
| ChannelIndex.Index.PlayChannel | main_mpv.py:929-937 | an unknown name changes nothing. A known one sets the current channel and the URL of its first match |
| ChannelIndex.Index.StopPlayback | main_mpv.py:948-955 | the current channel and URL are cleared, and nothing else changes |
| Icons.Request | main_mpv.py:960-989 | definition; properties in `NoUrlNeverQueues`, `CachedUrlServedFromCache`, `NewUrlIsQueued`, `SecondRequesterKeepsFallback` and `RequestKeepsInv` |
| Icons.DrainQueue | main_mpv.py:1001-1022 | the loop leaves a suffix of the queue, stops only when five fetches run or the queue is empty, and keeps every fetch already in flight; more in `DrainQueueSafe`, `DrainStartsFromQueue` and `DrainNoEntryLost` |
| Icons.Drain | main_mpv.py:1001-1029 | the loop touches only the fetches in flight and the queue |
| Icons.ProcessQueue | main_mpv.py:991-995 | definition: nothing happens once closing; properties in `ClosedIsInert` and `FullSlotsBlockQueue` |
| Icons.TimerFired | main_mpv.py:989 | definition; property in `TimerKeepsInv` |
| Icons.IconOf | main_mpv.py:1054-1064 | definition of the icon a completed fetch yields; property in `LoadedCountsOnce` |
| Icons.Record | main_mpv.py:1039-1069 | definition; properties in `RecordKeepsInv` and `LoadedCachesOutcome` |
| Icons.Settle | main_mpv.py:1079-1085 | definition; properties in `IdleMeansReset` and `LoadedCountsOnce` |
| Icons.Loaded | main_mpv.py:1031-1085 | definition; properties in `LoadedKeepsInv`, `LoadedCachesOutcome`, `LoadedCountsOnce` and `LoadedForDeletedItem` |
| Icons.ClearItems | main_mpv.py:886 | definition; property in `LostFetchHoldsSlot` |
| Icons.Cleanup | main_mpv.py:865-874 | empties the fetches in flight, the cache and the queue and zeroes the counters, leaving the rest |
| Icons.Close | main_mpv.py:1807-1813 | definition; property in `ClosedIsInert` |
| Icons.DrainQueueSafe | main_mpv.py:1001-1022 | the loop never lets more than five fetches run, and starts fetches only for uncached URLs of real items |
| Icons.DrainStartsFromQueue | main_mpv.py:1004-1022 | every fetch started comes from an entry popped from the queue |
| Icons.RequestKeepsInv | main_mpv.py:960-989 | a request keeps the invariant: at most five fetches in flight, none for a cached URL, each for a live list item |
| Icons.DrainKeepsInv | main_mpv.py:1001-1022 | the queue loop keeps the invariant |
| Icons.TimerKeepsInv | main_mpv.py:989 | the delayed queue run keeps the invariant |
| Icons.RecordKeepsInv | main_mpv.py:1039-1065 | recording an outcome keeps the invariant |
| Icons.LoadedKeepsInv | main_mpv.py:1031-1085 | the whole completion handler keeps the invariant |
| Icons.CleanupKeepsInv | main_mpv.py:865-874 | the cleared state, the closed state and the initial state satisfy the invariant |
| Icons.NoUrlNeverQueues | main_mpv.py:962-968 | without a logo URL, the item keeps the fallback and nothing is queued or counted |
| Icons.CachedUrlServedFromCache | main_mpv.py:971-974 | a cached URL is served from the cache and counted, and nothing is queued |
| Icons.NewUrlIsQueued | main_mpv.py:981-989 | a new URL is queued once, with a delayed queue run scheduled |
| Icons.CachedNeverFetched | main_mpv.py:1008-1009 | a cached URL never gets a fetch |
| Icons.DrainFirstEntryFetched | main_mpv.py:1001-1022 | the first live entry taken for an URL not in flight or cached before the run starts its fetch, with its own name and item, and no later entry for that URL replaces it |
| Icons.DrainNoEntryLost | main_mpv.py:1004-1022 | an entry taken off the queue is dropped only because its URL is already in flight or cached, or its item is `None`; otherwise its fetch is in flight |
| Icons.DrainTakesFromFront | main_mpv.py:1001-1029 | the loop consumes a prefix of the queue and starts fetches only from it. Every taken entry of a live item with an uncached URL is in flight afterwards; which entry's item a fetch carries is pinned by `DrainFirstEntryFetched`. It stops only when five fetches are in flight or the queue is empty |
| Icons.LoadedCachesOutcome | main_mpv.py:1039-1065 | after completion the URL is no longer in flight, and its icon or the fallback is cached |
| Icons.LoadedCountsOnce | main_mpv.py:1054-1085 | a live item shows the outcome. The counters are reset when nothing is left in flight or queued; otherwise exactly one of loaded or failed goes up by one |
| Icons.LoadedForDeletedItem | main_mpv.py:1066-1085 | a completion for an item already removed from the list changes no item. The counters are unchanged, unless nothing is left in flight or queued and something was counted, in which case they are reset |
| Icons.IdleMeansReset | main_mpv.py:1079-1085 | once nothing is in flight or queued after a completion, loaded and failed are back to zero |
| Icons.ClosedIsInert | main_mpv.py:994-995 | after closing, everything is empty, and queue runs and completions change nothing |
| Icons.LostFetchHoldsSlot | main_mpv.py:1031-1041 | a fetch that never calls back keeps its slot through requests, queue runs, timers and list clears |
| Icons.LostFetchSurvivesOthers | main_mpv.py:1040-1041 | another URL's completion does not free that slot |
| Icons.FullSlotsBlockQueue | main_mpv.py:1001-1002 | with five fetches in flight, a new request stays queued |
| Icons.SecondRequesterKeepsFallback | main_mpv.py:977-978 | a second item asking for a URL already in flight is never given the icon |
| Icons.QueuedTwiceFetchedOnce | main_mpv.py:1004-1009 | when the queue run takes two entries for the same URL and the earlier is the first live one for an URL not already in flight or cached, the fetch it leaves in flight carries the earlier entry's name and item, so the later entry's item is never given the icon |
| Icons.IconManager.constructor | main_mpv.py:445-457 | the fields start empty and satisfy the invariant |
| Icons.IconManager.GetChannelIcon | main_mpv.py:960-989 | the fields change exactly as `Request` says, and the invariant is kept |
| Icons.IconManager.ProcessDownloadQueue | main_mpv.py:991-1029 | the `while` loop with `pop(0)` ends in the state `ProcessQueue` describes, and the invariant is kept |
| Icons.IconManager.OnTimer | main_mpv.py:989 | a delayed run is one timer fewer plus a queue run |
| Icons.IconManager.OnIconLoaded | main_mpv.py:1031-1085 | the fields change exactly as `Loaded` says, and the invariant is kept |
| Icons.IconManager.ResetStatsWhenIdle | main_mpv.py:1079-1085 | the counters go back to zero exactly when nothing is in flight or queued and something was counted; nothing else changes |
| Icons.IconManager.RecordOutcome | main_mpv.py:1039-1069 | the fetch leaves the in-flight map, and the outcome is cached and shown |
| Icons.IconManager.ClearList | main_mpv.py:886 | clearing the channel list deletes every item |
| Icons.IconManager.CleanupChannelsAndThreads | main_mpv.py:865-874 | fetches, cache, queue and statistics are emptied |
| Icons.IconManager.CloseEvent | main_mpv.py:1807-1813 | closing sets the flag and then cleans up |
| Registry.DisplayOf | main_mpv.py:1168 | definition of `data.get('name', f)`; properties in `DisplayName`, `DisplayNameRoundTrip` and `FileByDisplayName` |
| Registry.IndexNamed | main_mpv.py:1167-1169 | the position is that of the first entry, in dict order, whose display name matches |
| Registry.FileByDisplayName | main_mpv.py:1163-1170 | an empty name finds nothing. Otherwise the result is a registered file with that display name, or none when no file has it |
| Registry.DisplayName | main_mpv.py:1172-1176 | a registered file shows its name, defaulting to the file name. An unknown file shows its basename |
| Registry.DisplayNameRoundTrip | main_mpv.py:1163-1176 | when display names are distinct, looking up a file's display name finds that file |
| Registry.SharedNamePicksEarlier | main_mpv.py:1167-1169 | of two playlists with the same display name, the later one can never be found by name |
| Registry.RefreshIffEventuallyStale | main_mpv.py:1343-1347 | the refresh button (main_mpv.py:1184) is enabled for a file exactly when the start-up check would update it at some time |
| Registry.LocalNeverRefreshable | main_mpv.py:1698-1701 | a playlist registered without a URL, as a local copy is here, never gets the refresh button |
| Registry.CanRefresh | main_mpv.py:1184 | definition of the refresh gate; properties in `RefreshIffEventuallyStale` and `LocalNeverRefreshable` |
| Registry.IsStale | main_mpv.py:1344-1346 | definition of the staleness test; properties in `Stale`, `FreshlyUpdatedNotStale` and `NeverUpdatedIsStale` |
| Registry.Stale | main_mpv.py:1343-1347 | a file is selected iff it has a URL and its last update, defaulting to 0, is more than 86400 seconds old |
| Registry.FreshlyUpdatedNotStale | main_mpv.py:1343-1347 | a playlist stamped at time t is not selected again before t + 86400 |
| Registry.NeverUpdatedIsStale | main_mpv.py:1345-1346 | a URL playlist with no timestamp is selected once `now` exceeds 86400 |
| Registry.Listed | main_mpv.py:1426-1430 | the listed files are the registered files that exist |
| Registry.Displays | main_mpv.py:1428-1429 | each combo item is the display name of the listed file at the same position |
| Registry.FindText | main_mpv.py:1556 | `findText` gives the first matching item, or -1 iff there is none |
| Registry.SelectText | main_mpv.py:1436 | `setCurrentText` selects the first matching item, or leaves the selection alone |
| Registry.ComboSelection | main_mpv.py:1433-1438 | an empty box selects nothing. Otherwise a registered last playlist's display name is selected when shown, else the first item |
| Registry.DefaultName | main_mpv.py:1676 | definition of `f"Плейлист {n}"`; used by `GivenName` and `AddDownloaded` |
| Registry.GivenName | main_mpv.py:1672-1676 | the stripped name text, or "Плейлист n+1" when it is empty |
| Registry.NumberedName | main_mpv.py:1684 | definition of `f"{base}_{i}{ext}"`; properties in `NumberedNameInjective` and `UniqueIndex` |
| Registry.NumberedNameInjective | main_mpv.py:1684 | different numbers give different file names |
| Registry.UniqueIndex | main_mpv.py:1683-1687 | the name uses the least i ≥ 1 whose numbered name does not exist |
| Registry.RemoveFirst | main_mpv.py:1282-1283 | `remove` drops one occurrence when present and keeps every other element |
| Registry.RemoveKeepsOrdered | main_mpv.py:1278-1283 | deleting a key keeps the others in order, each once |
| Registry.CutOut | main_mpv.py:1278 | cutting one position out of a duplicate-free list removes exactly that element |
| Registry.Playlists.constructor | main_mpv.py:447-450 | an empty registry with no last playlist and an empty combo box, satisfying the invariant |
| Registry.Playlists.LoadPlaylistsData | main_mpv.py:1316-1332 | a missing or unreadable file gives an empty registry with no last playlist. Otherwise the stored one is used |
| Registry.Playlists.Put | main_mpv.py:1698-1701 | assigning a key keeps an existing key in its place and appends a new one |
| Registry.Playlists.UpdatePlaylistList | main_mpv.py:1420-1438 | the list and the box are rebuilt from the registered files that exist, and the selection follows `ComboSelection` |
| Registry.Playlists.LoadInitialPlaylist | main_mpv.py:1537-1560 | the list is rebuilt. With no playlists there is no target and the combo keeps the rebuilt selection. Otherwise the target is the last playlist if it exists, else the first listed file, and the combo moves to the first item showing the target's display name when there is one (always, when the target is listed) |
| Registry.Playlists.OnPlaylistChanged | main_mpv.py:1192-1219 | the file found under the name becomes the last playlist, the refresh button follows `CanRefresh`, and the file is loaded when it exists |
| Registry.Playlists.DeleteSelected | main_mpv.py:1252-1286 | once confirmed, the selected playlist's record is removed, the order of the others is kept, and the list is rebuilt with the last playlist's selection. Without a match or confirmation nothing changes |
| Registry.Playlists.UpdateSelecting | main_mpv.py:1709-1710 | the list is rebuilt from the files on disk, and the first item showing the given name is selected when there is one |
| Registry.Playlists.AddLocal | main_mpv.py:1665-1710 | adds a copy under the least free `base_i.ext`, named by `GivenName` and stamped now. The new key goes last in the order unless it was already registered. The list is rebuilt and the given name selected. Nothing is added when no file was chosen or the copy fails. The added file is returned for the caller to load with `Index.Load` |
| Registry.Playlists.AddDownloaded | main_mpv.py:1737-1772 | the download is renamed to the least free `playlist_i.m3u`, registered with its URL under the pending or default name (last in the order unless already registered), and the list is rebuilt with the last playlist's selection. The new file is returned for the caller to load with `Index.Load` |
| Registry.Playlists.OnPlaylistUpdated | main_mpv.py:1396-1410 | on success a registered playlist's timestamp is renewed, and it is reloaded when selected. An unregistered name raises `KeyError` |
| Registry.Playlists.NeedsUpdate | main_mpv.py:1334-1347 | the playlists offered for refresh are exactly the stale registered ones |

## Left out

- Qt widgets and the MPV player:
  - widget construction, styling, dialogs and message boxes;
  - fullscreen handling, key handling and volume;
  - the calls into the MPV library.

  These are toolkit and native-library calls. The model keeps only the state they read or
  write: the combo boxes' items and selection, list items, and the current channel.
- Thread bodies and the network:
  - `PlaylistDownloadThread.run` and `ImageDownloadThread.run`;
  - `urllib`, `ssl` and `socket`.

  Their outcomes enter as parameters: a download's success, an image or a null pixmap.
  `_active_threads` keeps strong references only, and is not modelled.
- File access:
  - reading and writing `playlists.json`;
  - `shutil.copy2`, `os.rename` and `open`.

  Existence of a file is a set of names, a playlist file is its sequence of lines, and a copy's
  success is a flag. JSON values of unexpected types are not modelled: records hold strings and
  integers.
- Reading lines: the model does not split a file into lines under universal newlines. Each
  line is given already split.
- `PyStr.Lower` covers ASCII, Latin-1 and the basic Cyrillic capitals (U+0400–U+042F). Other
  characters are kept as they are, while Python would still fold some of them.
- Timestamps are integers. The source uses `time.time()` floats, so fractional seconds are not
  modelled.
- Signal re-entrancy:
  - changing a combo box's selection in the source triggers `on_playlist_changed` or
    `filter_channels` again, but the model treats each handler on its own;
  - `initializing_ui` and `hasattr` guards are not modelled;
  - `safe_call` swallowing an exception is modelled as a missing completion, and in
    `Index.Load` as a decoding error that stops the loop after a given number of lines.
- The `filter_channels` loop that builds list items and requests an icon for each shown channel
  is not composed with the index. `Index.Shown` gives the channels, and `Icons.Request` models
  each request.
- ChannelIndex.Index.Load: `load_playlist` first calls `_cleanup_channels_and_threads`
  (main_mpv.py:824), which also empties the icon bookkeeping. The model does not compose the
  two: `Index.Load` resets only the index, and `Icons.Cleanup` models the icon part on its own.
  When reading raises a decoding error, the number of lines consumed before it is a parameter.
  It is at most the position of the line holding the bad bytes; where it falls depends on how the
  reader splits the file into blocks (for a short file, no line at all). Byte decoding and that
  block splitting are not modelled.
- Icons.Request: every caller passes a real list item. For `None` the source would fail at
  `setIcon` (main_mpv.py:964) before queueing, while the model queues the entry and the queue
  run drops it.
- PyStr.Basename follows the Windows separators `\` and `/` of `ntpath` but not its drive
  handling: a drive-relative name such as `C:list.m3u` is kept whole. POSIX path rules, under
  which `\` is an ordinary character, are not modelled.
- `current_category` (main_mpv.py:436) is set but never read, and is not modelled.
- `update_playlist_from_url` and `load_playlist_from_url` only start a thread, and the model
  does not cover them. Their completions are `OnPlaylistUpdated` and `AddDownloaded`.
- Registry.Playlists.AddLocal and Registry.Playlists.AddDownloaded: the source then calls
  `load_playlist` on the new file (main_mpv.py:1706, main_mpv.py:1772). The model does not compose
  the registry with the channel index; the methods return the file that `Index.Load` then reads.
- `Registry.Playlists.AddDownloaded` assumes the rename of `downloaded.m3u` succeeds, since the
  source does not handle its failure.
- Rendering statistics and console messages are not modelled.

The model follows the code, including these behaviours:

- a name is split at the first comma;
- the categories are sorted plainly, so "Все каналы" is not forced first;
- channels without a group get no category list of their own;
- a second item waiting on a URL already in flight is never given the icon.
