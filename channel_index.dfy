/**
 * The player's channel state: the channel list and category index that `load_playlist`
 * builds line by line, the sorted category choices of `update_categories`, the selection
 * of `filter_channels` and the lookup of `play_channel`.
 */
module ChannelIndex {
  import opened Wrappers
  import opened PyStr
  import opened PySort
  import opened M3u

  // ---------------------------------------------------------------------------
  // The selection of filter_channels

  /** `search in channel.name.lower()`, for an already lowered search text. */
  predicate Matches(c: Channel, q: string) {
    Contains(Lower(c.name), q)
  }

  /** `a` is `b` with some elements left out, the rest in their order. */
  predicate IsSubsequence<T(==)>(a: seq<T>, b: seq<T>)
    decreases |b|
  {
    if b == [] then a == []
    else (a != [] && a[0] == b[0] && IsSubsequence(a[1..], b[1..])) || IsSubsequence(a, b[1..])
  }

  /** `[ch for ch in cs if q in ch.name.lower()]`. */
  function Select(cs: seq<Channel>, q: string): (r: seq<Channel>)
    ensures forall c :: multiset(r)[c] == if Matches(c, q) then multiset(cs)[c] else 0
    decreases |cs|
  {
    if cs == [] then []
    else
      var rest := Select(cs[1..], q);
      assert multiset(cs) == multiset{cs[0]} + multiset(cs[1..]) by {
        assert cs == [cs[0]] + cs[1..];
      }
      if Matches(cs[0], q) then [cs[0]] + rest else rest
  }

  /** The comprehension keeps the list's order. */
  lemma {:induction false} SelectIsSubsequence(cs: seq<Channel>, q: string)
    ensures IsSubsequence(Select(cs, q), cs)
    decreases |cs|
  {
    if cs != [] {
      SelectIsSubsequence(cs[1..], q);
      if Matches(cs[0], q) {
        assert ([cs[0]] + Select(cs[1..], q))[1..] == Select(cs[1..], q);
      }
    }
  }

  /** What `filter_channels` shows for the selected category and the search box text. */
  function Filter(cats: map<string, seq<Channel>>, category: string, search: string): (r: seq<Channel>)
    ensures category == "" || category !in cats ==> r == []
    ensures category != "" && category in cats && search == "" ==> r == cats[category]
    ensures category != "" && category in cats && search != "" ==> r == Select(cats[category], Lower(search))
  {
    if category == "" || category !in cats then []
    else
      var q := Lower(search);
      if q != "" then Select(cats[category], q) else cats[category]
  }

  /** Every channel matches the empty search text, so the shortcut for an empty search box
      agrees with the comprehension. */
  lemma {:induction false} SelectEmptyQuery(cs: seq<Channel>)
    ensures Select(cs, "") == cs
    decreases |cs|
  {
    if cs != [] {
      assert OccursAt(Lower(cs[0].name), "", 0);
      SelectEmptyQuery(cs[1..]);
    }
  }

  /** Narrowing the same search twice changes nothing. */
  lemma {:induction false} SelectIdempotent(cs: seq<Channel>, q: string)
    ensures Select(Select(cs, q), q) == Select(cs, q)
    decreases |cs|
  {
    if cs != [] {
      SelectIdempotent(cs[1..], q);
      if Matches(cs[0], q) {
        assert ([cs[0]] + Select(cs[1..], q))[1..] == Select(cs[1..], q);
      }
    }
  }

  /** After a load, "all channels" with an empty search shows every channel in file order. */
  lemma ShowAllAfterLoad(lines: seq<string>)
    requires NoAllGroup(Scan(lines).emitted)
    ensures Filter(CategoryIndex(Scan(lines).emitted), CategoryAll, "") == Channels(Scan(lines).emitted)
  {
    AllListIsChannels(Scan(lines).emitted);
  }

  // ---------------------------------------------------------------------------
  // The lookup of play_channel

  /** `next((c for c in cs if c.name == name), None)`. */
  function FirstNamed(cs: seq<Channel>, name: string): (r: Option<Channel>)
    ensures r.None? <==> forall i :: 0 <= i < |cs| ==> cs[i].name != name
    ensures r.Some? ==> exists i :: 0 <= i < |cs| && cs[i] == r.value && r.value.name == name
                          && forall j :: 0 <= j < i ==> cs[j].name != name
    decreases |cs|
  {
    if cs == [] then None
    else if cs[0].name == name then
      Some(cs[0])
    else
      var r := FirstNamed(cs[1..], name);
      if r.Some? then
        var i :| 0 <= i < |cs[1..]| && cs[1..][i] == r.value && r.value.name == name
                 && forall j :: 0 <= j < i ==> cs[1..][j].name != name;
        assert cs[i + 1] == r.value && forall j :: 0 <= j < i + 1 ==> cs[j].name != name;
        r
      else
        assert forall i :: 1 <= i < |cs| ==> cs[i] == cs[1..][i - 1];
        r
  }

  /** Among channels of the same name, the one nearest the top of the playlist is played. */
  lemma FirstNamedPicksEarliest(cs: seq<Channel>, i: nat)
    requires i < |cs|
    ensures FirstNamed(cs, cs[i].name).Some?
    ensures exists j :: 0 <= j <= i && FirstNamed(cs, cs[i].name).value == cs[j]
  {
    var r := FirstNamed(cs, cs[i].name);
    var j :| 0 <= j < |cs| && cs[j] == r.value && r.value.name == cs[i].name
             && forall k :: 0 <= k < j ==> cs[k].name != cs[i].name;
    assert j <= i;
  }

  // ---------------------------------------------------------------------------
  // The player's channel state

  /** The combo box selection after `clear()` and `addItems(items)`, then `setCurrentText`
      of "all channels" when that is a key. */
  function SelectedCategory(items: seq<string>, keys: set<string>): string {
    if CategoryAll in keys then CategoryAll else if items != [] then items[0] else ""
  }

  /** With the combo box holding the keys, some key is selected whenever there is one. */
  lemma SelectedIsKey(items: seq<string>, keys: set<string>)
    requires forall g :: g in items <==> g in keys
    ensures keys != {} ==> SelectedCategory(items, keys) in keys
  {
    if keys != {} && CategoryAll !in keys {
      var g :| g in keys;
      assert g in items;
      assert items[0] in items;
    }
  }

  class Index {
    var channels: seq<Channel>
    var categories: map<string, seq<Channel>>
    /** The entries of the category combo box, and its current text. */
    var categoryItems: seq<string>
    var currentCategory: string
    var currentChannel: string
    var currentChannelUrl: string
    /** The emissions the channel lists were built from. */
    ghost var emitted: seq<Emission>

    /** The lists are those of the declarative index over the emitted channels. */
    ghost predicate Valid()
      reads this
    {
      && channels == Channels(emitted)
      && categories == CategoryIndex(emitted)
      && GroupsConsistent(emitted)
    }

    constructor ()
      ensures Valid() && emitted == []
      ensures channels == [] && categories == map[CategoryAll := []]
      ensures categoryItems == [] && currentCategory == ""
      ensures currentChannel == "" && currentChannelUrl == ""
    {
      channels := [];
      categories := map[CategoryAll := []];
      categoryItems := [];
      currentCategory := "";
      currentChannel := "";
      currentChannelUrl := "";
      emitted := [];
      new;
      assert CategoryIndex([]) == map[CategoryAll := []];
    }

    /** `update_categories`: the keys sorted plainly, "all channels" selected when present. */
    method UpdateCategories()
      modifies this
      ensures StrictlySorted(categoryItems)
      ensures forall g :: g in categoryItems <==> g in categories
      ensures |categoryItems| == |categories|
      ensures currentCategory == SelectedCategory(categoryItems, categories.Keys)
      ensures channels == old(channels) && categories == old(categories) && emitted == old(emitted)
      ensures currentChannel == old(currentChannel) && currentChannelUrl == old(currentChannelUrl)
    {
      var items := SortedKeys(categories.Keys);
      categoryItems := items;
      currentCategory := SelectedCategory(items, categories.Keys);
    }

    /** What `on_delete_playlist_clicked` does once no playlist is left: empty lists and a
        category box holding only "all channels", which is selected. */
    method ClearChannels()
      modifies this
      ensures Valid() && emitted == [] && channels == [] && categories == map[CategoryAll := []]
      ensures categoryItems == [CategoryAll] && currentCategory == CategoryAll
      ensures currentChannel == old(currentChannel) && currentChannelUrl == old(currentChannelUrl)
    {
      channels := [];
      categories := map[CategoryAll := []];
      emitted := [];
      assert CategoryIndex([]) == map[CategoryAll := []];
      UpdateCategories();
      assert CategoryAll in categoryItems;
      assert |categoryItems| == 1;
    }

    /** `load_playlist`: the parse loop followed by `update_categories`; a missing file changes
        nothing. `undecodable`, when present, is the number of lines the loop consumed before
        reading the file raised a decoding error: at most the position of the line holding the
        bad bytes, and where it falls depends on how the reader splits the file into blocks
        (for a short file, none). The lines consumed are parsed and kept, and
        `update_categories` is skipped. */
    method Load(fileExists: bool, lines: seq<string>, undecodable: Option<nat>)
      requires undecodable.Some? ==> undecodable.value <= |lines|
      modifies this
      ensures !fileExists ==> unchanged(this)
      ensures fileExists && undecodable.None? ==> Valid() && emitted == Scan(lines).emitted
      ensures fileExists && undecodable.None? ==>
                StrictlySorted(categoryItems)
                && (forall g :: g in categoryItems <==> g in categories)
                && currentCategory == CategoryAll
      ensures fileExists && undecodable.Some? ==>
                Valid() && emitted == Scan(lines[..undecodable.value]).emitted
                && categoryItems == old(categoryItems) && currentCategory == old(currentCategory)
      ensures currentChannel == old(currentChannel) && currentChannelUrl == old(currentChannelUrl)
    {
      if !fileExists {
        return;
      }
      channels := [];
      categories := map[CategoryAll := []];
      emitted := [];
      assert CategoryIndex([]) == map[CategoryAll := []];
      if undecodable.Some? {
        Parse(lines[..undecodable.value]);
        return;
      }
      Parse(lines);
      UpdateCategories();
    }

    /** The `for line in f` loop of `load_playlist`, from empty lists. */
    method Parse(lines: seq<string>)
      requires channels == [] && categories == map[CategoryAll := []] && emitted == []
      modifies this
      ensures Valid() && emitted == Scan(lines).emitted
      ensures categoryItems == old(categoryItems) && currentCategory == old(currentCategory)
      ensures currentChannel == old(currentChannel) && currentChannelUrl == old(currentChannelUrl)
    {
      assert CategoryIndex([]) == map[CategoryAll := []];
      var name: Option<string>, group: Option<string>, logo: Option<string> := None, None, None;
      var i := 0;
      while i < |lines|
        invariant 0 <= i <= |lines|
        invariant Scan(lines[..i]) == ScanState(LineInfo(name, group, logo), emitted)
        invariant channels == Channels(emitted) && categories == CategoryIndex(emitted)
        invariant categoryItems == old(categoryItems) && currentCategory == old(currentCategory)
        invariant currentChannel == old(currentChannel) && currentChannelUrl == old(currentChannelUrl)
      {
        assert lines[..i + 1] == lines[..i] + [lines[i]];
        ScanSnoc(lines[..i], lines[i]);
        name, group, logo := ParseOne(lines[i], name, group, logo);
        i := i + 1;
      }
      assert lines[..i] == lines;
      ScanGroupsConsistent(lines);
    }

    /** One pass of the loop body: the line's effect on the pending triple and the lists. */
    method ParseOne(raw: string, name: Option<string>, group: Option<string>, logo: Option<string>)
      returns (name': Option<string>, group': Option<string>, logo': Option<string>)
      requires channels == Channels(emitted) && categories == CategoryIndex(emitted)
      modifies this
      ensures Step(ScanState(LineInfo(name, group, logo), old(emitted)), raw)
              == ScanState(LineInfo(name', group', logo'), emitted)
      ensures channels == Channels(emitted) && categories == CategoryIndex(emitted)
      ensures categoryItems == old(categoryItems) && currentCategory == old(currentCategory)
      ensures currentChannel == old(currentChannel) && currentChannelUrl == old(currentChannelUrl)
    {
      name', group', logo' := name, group, logo;
      var line := Strip(raw);
      if line == "" {
      } else if StartsWith(line, "#EXTINF") {
        var info := ParseLine(line);
        name', group', logo' := info.name, info.group, info.logo;
      } else if !StartsWith(line, "#") && Truthy(name) {
        Append(Channel(name.value, line, GroupOrNone(group), logo), group);
        name', group', logo' := None, None, None;
      }
    }

    /** The loop body's appends for one emitted channel: to `channels`, to "all channels" and,
        when its group-title is truthy, to that group's list, created on first use. */
    method Append(channel: Channel, group: Option<string>)
      requires channels == Channels(emitted) && categories == CategoryIndex(emitted)
      modifies this
      ensures emitted == old(emitted) + [Emission(channel, group)]
      ensures channels == Channels(emitted) && categories == CategoryIndex(emitted)
      ensures categoryItems == old(categoryItems) && currentCategory == old(currentCategory)
      ensures currentChannel == old(currentChannel) && currentChannelUrl == old(currentChannelUrl)
    {
      var e := Emission(channel, group);
      IndexStep(emitted, e);
      assert (emitted + [e])[..|emitted|] == emitted;
      AddToCategories(channel, group);
      channels := channels + [channel];
      emitted := emitted + [e];
    }

    /** The appends to `categories` alone. */
    method AddToCategories(channel: Channel, group: Option<string>)
      requires CategoryAll in categories
      modifies this
      ensures categories == Insert(old(categories), Emission(channel, group))
      ensures channels == old(channels) && emitted == old(emitted)
      ensures categoryItems == old(categoryItems) && currentCategory == old(currentCategory)
      ensures currentChannel == old(currentChannel) && currentChannelUrl == old(currentChannelUrl)
    {
      categories := categories[CategoryAll := categories[CategoryAll] + [channel]];
      if Truthy(group) {
        if group.value !in categories {
          categories := categories[group.value := []];
        }
        categories := categories[group.value := categories[group.value] + [channel]];
      }
    }

    /** The list `filter_channels` shows for the given search box text. */
    function Shown(search: string): (r: seq<Channel>)
      reads this
      ensures forall c :: c in r ==> currentCategory in categories && c in categories[currentCategory]
    {
      var r := Filter(categories, currentCategory, search);
      assert forall c :: c in r ==> currentCategory in categories && c in categories[currentCategory] by {
        if currentCategory != "" && currentCategory in categories && search != "" {
          forall c | c in r ensures c in categories[currentCategory] {
            assert multiset(r)[c] > 0;
          }
        }
      }
      r
    }

    /** `play_channel`: the first channel of that name becomes current; an unknown name
        changes nothing. */
    method PlayChannel(name: string)
      modifies this
      ensures FirstNamed(channels, name).None? ==> unchanged(this)
      ensures FirstNamed(channels, name).Some? ==>
                currentChannel == name && currentChannelUrl == FirstNamed(channels, name).value.url
      ensures channels == old(channels) && categories == old(categories) && emitted == old(emitted)
      ensures categoryItems == old(categoryItems) && currentCategory == old(currentCategory)
    {
      var found := FirstNamed(channels, name);
      if found.None? {
        return;
      }
      currentChannel := name;
      currentChannelUrl := found.value.url;
    }

    /** `stop_playback`: no channel is current any more. */
    method StopPlayback()
      modifies this
      ensures currentChannel == "" && currentChannelUrl == ""
      ensures channels == old(channels) && categories == old(categories) && emitted == old(emitted)
      ensures categoryItems == old(categoryItems) && currentCategory == old(currentCategory)
    {
      currentChannel := "";
      currentChannelUrl := "";
    }
  }

  /** Sorting is plain: a group whose name sorts below "all channels" comes before it in the
      combo box, which still selects "all channels". */
  lemma AllIsNotForcedFirst(items: seq<string>)
    requires StrictlySorted(items) && |items| == 2
    requires forall g :: g in items <==> g in {CategoryAll, "News"}
    ensures items[0] == "News"
    ensures SelectedCategory(items, {CategoryAll, "News"}) == CategoryAll
  {
    assert "News" in items;
    assert Less("News", CategoryAll);
    assert items[0] in items;
    if items[0] != "News" {
      SortedFirstIsLeast(items, "News");
      LessAsymmetric("News", CategoryAll);
    }
  }
}
