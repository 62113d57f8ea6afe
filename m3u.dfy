/**
 * The playlist half of the player: the `Channel` record, the M3U content
 * check, the parse of one `#EXTINF` line, and the line-by-line scan that
 * `load_playlist` performs, together with the category index that scan
 * builds, stated declaratively.
 */
module M3u {
  import opened Wrappers
  import opened PyStr

  /** The synthetic category holding every channel. */
  const CategoryAll: string := "Все каналы"
  /** The group given to a channel whose line has no usable `group-title`. */
  const CategoryNone: string := "Без категории"

  const GroupMarker: string := "group-title=\""
  const GroupOffset: nat := 13
  const LogoMarker: string := "tvg-logo=\""
  const LogoOffset: nat := 10

  /** One playable entry of a playlist. */
  datatype Channel = Channel(name: string, url: string, group: string, logo: Option<string>)

  // ---------------------------------------------------------------------------
  // Channel.to_dict / Channel.from_dict

  /** A value stored in a channel dictionary: a string or `None`. */
  datatype PyValue = Str(s: string) | PyNone

  type ChannelDict = map<string, PyValue>

  /** The `str`-annotated fields of a dictionary hold strings when present. */
  predicate TextFieldsAreStrings(d: ChannelDict) {
    && ("name" in d ==> d["name"].Str?)
    && ("url" in d ==> d["url"].Str?)
    && ("group" in d ==> d["group"].Str?)
  }

  /** `data.get(key, default)` for a string-valued key. */
  function GetText(d: ChannelDict, key: string, default: string): string
    requires key in d ==> d[key].Str?
  {
    if key in d then d[key].s else default
  }

  /** `data.get(key)` for an optional string. */
  function GetOptional(d: ChannelDict, key: string): Option<string> {
    if key in d && d[key].Str? then Some(d[key].s) else None
  }

  function ToValue(o: Option<string>): PyValue {
    match o
    case Some(s) => Str(s)
    case None => PyNone
  }

  /** `Channel.to_dict`. */
  function ToDict(c: Channel): ChannelDict {
    map["name" := Str(c.name), "url" := Str(c.url), "group" := Str(c.group), "logo" := ToValue(c.logo)]
  }

  /** `Channel.from_dict`: missing keys fall back to `''`, `''`, the uncategorised group and `None`. */
  function FromDict(d: ChannelDict): Channel
    requires TextFieldsAreStrings(d)
  {
    Channel(GetText(d, "name", ""), GetText(d, "url", ""), GetText(d, "group", CategoryNone), GetOptional(d, "logo"))
  }

  /** Reading back a channel's dictionary gives the channel. */
  lemma ChannelRoundTrip(c: Channel)
    ensures TextFieldsAreStrings(ToDict(c))
    ensures FromDict(ToDict(c)) == c
  {
  }

  /** An empty dictionary gives the default channel. */
  lemma ChannelDefaults()
    ensures FromDict(map[]) == Channel("", "", CategoryNone, None)
  {
  }

  /** A dictionary with exactly the four keys, string-valued, is the dictionary of the channel read from it. */
  lemma DictRoundTrip(d: ChannelDict)
    requires d.Keys == {"name", "url", "group", "logo"}
    requires TextFieldsAreStrings(d)
    ensures ToDict(FromDict(d)) == d
  {
    var e := ToDict(FromDict(d));
    assert e.Keys == d.Keys;
    assert e["logo"] == d["logo"] by {
      if d["logo"].Str? {
        assert e["logo"] == Str(d["logo"].s);
      }
    }
  }

  // ---------------------------------------------------------------------------
  // validate_m3u

  /** `validate_m3u`: the content is non-empty and mentions `#EXTM3U` or `#EXTINF`. */
  function ValidateM3u(content: string): (r: bool)
    ensures r <==> |content| > 0 && (Occurs(content, "#EXTM3U") || Occurs(content, "#EXTINF"))
  {
    |content| > 0 && (Contains(content, "#EXTM3U") || Contains(content, "#EXTINF"))
  }

  /** The non-empty test of `validate_m3u` never decides the outcome: a marker makes the content non-empty. */
  lemma ValidateIsMarkerTest(content: string)
    ensures ValidateM3u(content) <==> (Occurs(content, "#EXTM3U") || Occurs(content, "#EXTINF"))
  {
    if Occurs(content, "#EXTM3U") {
      var i :| OccursAt(content, "#EXTM3U", i);
    } else if Occurs(content, "#EXTINF") {
      var i :| OccursAt(content, "#EXTINF", i);
    }
  }

  // ---------------------------------------------------------------------------
  // parse_m3u_line

  /** What `parse_m3u_line` returns: (name, group, logo), each possibly `None`. */
  datatype LineInfo = LineInfo(name: Option<string>, group: Option<string>, logo: Option<string>)

  const NoInfo: LineInfo := LineInfo(None, None, None)

  /** No double quote in `s`. */
  predicate QuoteFree(s: string) {
    forall i :: 0 <= i < |s| ==> s[i] != '"'
  }

  /** `s` without its last character (Python's `s[:-1]`). */
  function DropLast(s: string): string {
    if s == [] then [] else s[..|s| - 1]
  }

  /**
   * The value of an attribute as the source slices it: from `offset` characters after
   * the first occurrence of `marker` to the next double quote. With no closing quote
   * `find` gives -1 and the slice stops one character before the end.
   */
  function Attribute(info: string, marker: string, offset: nat): (v: Option<string>)
    requires offset == |marker|
    ensures v.Some? <==> Occurs(info, marker)
  {
    if Contains(info, marker) then
      var start := Find(info, marker, 0) + offset;
      Some(Slice(info, start, Find(info, "\"", start)))
    else
      None
  }

  /** Where the value of a present attribute starts: just after the first marker. */
  function ValueStart(info: string, marker: string): (start: nat)
    requires Occurs(info, marker)
    ensures start <= |info|
  {
    var k := Find(info, marker, 0);
    k + |marker|
  }

  /** With no quote after the marker, `find` gives -1 and the value is the rest of the text
      without its last character. */
  lemma AttributeUnclosed(info: string, marker: string)
    requires Occurs(info, marker)
    requires QuoteFree(info[ValueStart(info, marker)..])
    ensures Attribute(info, marker, |marker|) == Some(DropLast(info[ValueStart(info, marker)..]))
  {
    var start := ValueStart(info, marker);
    forall i | start <= i ensures !OccursAt(info, "\"", i) {
      if i < |info| {
        assert info[i] == info[start..][i - start];
      }
    }
    assert Find(info, "\"", start) == -1;
    assert Contains(info, marker);
    assert Attribute(info, marker, |marker|) == Some(Slice(info, start, -1));
    if start < |info| {
      assert Slice(info, start, -1) == info[start..|info| - 1] == DropLast(info[start..]);
    } else {
      assert Slice(info, start, -1) == "" == DropLast(info[start..]);
    }
  }

  /** With a quote after the marker, the value is the quote-free text up to the first one. */
  lemma AttributeClosed(info: string, marker: string)
    requires Occurs(info, marker)
    requires !QuoteFree(info[ValueStart(info, marker)..])
    ensures var start := ValueStart(info, marker);
            var v := Attribute(info, marker, |marker|).value;
            && QuoteFree(v)
            && start + |v| < |info|
            && info[start..start + |v|] == v
            && info[start + |v|] == '"'
  {
    var start := ValueStart(info, marker);
    var end := Find(info, "\"", start);
    if end == -1 {
      assert QuoteFree(info[start..]) by {
        forall i | 0 <= i < |info[start..]| ensures info[start..][i] != '"' {
          assert !OccursAt(info, "\"", start + i);
        }
      }
    }
    var v := Attribute(info, marker, |marker|).value;
    assert v == info[start..end];
    assert QuoteFree(v) by {
      forall i | 0 <= i < |v| ensures v[i] != '"' {
        assert !OccursAt(info, "\"", start + i);
      }
    }
    assert info[end..end + 1] == "\"";
  }

  /** An attribute value that runs to the end of the info part with no closing quote
      loses its last character. */
  lemma UnclosedAttributeDropsLastChar(info: string, marker: string, value: string)
    requires |marker| > 0 && marker[|marker| - 1] == '"'
    requires info == marker + value
    requires QuoteFree(value) && value != []
    ensures Attribute(info, marker, |marker|) == Some(value[..|value| - 1])
  {
    assert OccursAt(info, marker, 0);
    assert Find(info, marker, 0) == 0;
    assert info[|marker|..] == value;
    AttributeUnclosed(info, marker);
  }

  /** Index of the first comma of `line`, as `split(',', 1)` uses it. */
  function FirstComma(line: string): (k: int)
    ensures k == -1 <==> ',' !in line
    ensures k != -1 ==> 0 <= k < |line| && line[k] == ',' && ',' !in line[..k]
  {
    var k := Find(line, ",", 0);
    if k == -1 then
      assert forall i :: 0 <= i < |line| ==> line[i] != ',' by {
        forall i | 0 <= i < |line| ensures line[i] != ',' {
          assert !OccursAt(line, ",", i);
        }
      }
      assert ',' !in line;
      -1
    else
      assert forall i :: 0 <= i < k ==> line[i] != ',' by {
        forall i | 0 <= i < k ensures line[i] != ',' {
          assert !OccursAt(line, ",", i);
        }
      }
      assert OccursAt(line, ",", k);
      assert line[k] == line[k..k + 1][0] == ',';
      assert ',' !in line[..k];
      k
  }

  /**
   * `parse_m3u_line`: no comma gives (None, None, None); otherwise the name is the
   * stripped text after the FIRST comma, and group and logo are looked up only in the
   * text before that comma.
   */
  function ParseLine(line: string): LineInfo {
    var k := FirstComma(line);
    if k == -1 then NoInfo
    else
      var info := line[..k];
      LineInfo(Some(Strip(line[k + 1..])),
               Attribute(info, GroupMarker, GroupOffset),
               Attribute(info, LogoMarker, LogoOffset))
  }

  /** The line splits at its first comma: the name is the stripped rest of the line, commas and all,
      and the attributes come only from the text before that comma. */
  lemma SplitsAtFirstComma(head: string, tail: string)
    requires ',' !in head
    ensures ParseLine(head + "," + tail)
         == LineInfo(Some(Strip(tail)), Attribute(head, GroupMarker, GroupOffset), Attribute(head, LogoMarker, LogoOffset))
  {
    var line := head + "," + tail;
    assert line[|head|] == ',';
    assert line[..|head|] == head;
    assert line[|head| + 1..] == tail;
    assert FirstComma(line) == |head|;
  }

  /** A line without a comma carries nothing. */
  lemma NoCommaNoInfo(line: string)
    requires ',' !in line
    ensures ParseLine(line) == NoInfo
  {
  }

  /** Every line with a comma is a comma-free head, that comma, and the rest. */
  lemma CommaSplits(line: string)
    requires ',' in line
    ensures exists k :: 0 <= k < |line| && line[k] == ',' && ',' !in line[..k]
                        && ParseLine(line) == LineInfo(Some(Strip(line[k + 1..])),
                                                       Attribute(line[..k], GroupMarker, GroupOffset),
                                                       Attribute(line[..k], LogoMarker, LogoOffset))
  {
    var k := FirstComma(line);
    assert line == line[..k] + "," + line[k + 1..];
    SplitsAtFirstComma(line[..k], line[k + 1..]);
  }

  /** The group marker ends in its only quote, so in a text whose one quote is that of the
      marker placed after `p`, no occurrence can start inside `p`. */
  lemma NoMarkerInPrefix(info: string, p: string, v: string, i: int)
    requires info == p + GroupMarker + v && QuoteFree(p)
    requires 0 <= i < |p|
    ensures !OccursAt(info, GroupMarker, i)
  {
    if i + 13 <= |info| {
      if i + 12 < |p| {
        assert info[i + 12] == p[i + 12];
      } else {
        assert info[i + 12] == GroupMarker[i + 12 - |p|];
      }
      assert info[i..i + 13][12] != GroupMarker[12];
    }
  }

  /** A quote-free text before the group marker does not hide it. */
  lemma MarkerFoundAfterPrefix(p: string, v: string)
    requires QuoteFree(p)
    ensures Find(p + GroupMarker + v, GroupMarker, 0) == |p|
  {
    var info := p + GroupMarker + v;
    assert info[|p|..|p| + |GroupMarker|] == GroupMarker;
    assert OccursAt(info, GroupMarker, |p|);
    forall i | 0 <= i < |p| ensures !OccursAt(info, GroupMarker, i) {
      NoMarkerInPrefix(info, p, v, i);
    }
  }

  /** A comma inside a group-title value cuts the line there: the group keeps only the text before
      that comma minus its last character, and the name is everything after it. */
  lemma CommaInGroupTitle(p: string, v: string, tail: string)
    requires QuoteFree(p) && ',' !in p && QuoteFree(v) && ',' !in v && v != []
    ensures ParseLine(p + GroupMarker + v + "," + tail).group == Some(v[..|v| - 1])
    ensures ParseLine(p + GroupMarker + v + "," + tail).name == Some(Strip(tail))
  {
    var head := p + GroupMarker + v;
    assert ',' !in head by {
      assert forall i :: 0 <= i < |head| ==> head[i] != ',' by {
        forall i | 0 <= i < |head| ensures head[i] != ',' {
          if i < |p| { assert head[i] == p[i]; }
          else if i < |p| + |GroupMarker| { assert head[i] == GroupMarker[i - |p|]; }
          else { assert head[i] == v[i - |p| - |GroupMarker|]; }
        }
      }
    }
    assert head + "," + tail == p + GroupMarker + v + "," + tail;
    SplitsAtFirstComma(head, tail);
    MarkerFoundAfterPrefix(p, v);
    assert head[|p| + |GroupMarker|..] == v;
    assert Occurs(head, GroupMarker) by {
      assert OccursAt(head, GroupMarker, |p|);
    }
    assert ValueStart(head, GroupMarker) == |p| + |GroupMarker|;
    AttributeUnclosed(head, GroupMarker);
  }

  // ---------------------------------------------------------------------------
  // The line loop of load_playlist

  /** A channel the loop emitted, with the group exactly as the info line gave it. */
  datatype Emission = Emission(channel: Channel, rawGroup: Option<string>)

  /** The loop's variables: the pending (name, group, logo) and what has been emitted so far. */
  datatype ScanState = ScanState(pending: LineInfo, emitted: seq<Emission>)

  const ScanStart: ScanState := ScanState(NoInfo, [])

  /** The group a channel is given: its group-title when truthy, else the uncategorised group. */
  function GroupOrNone(g: Option<string>): string {
    if Truthy(g) then g.value else CategoryNone
  }

  /** One line through the loop body. */
  function Step(st: ScanState, raw: string): ScanState {
    var line := Strip(raw);
    if line == "" then st
    else if StartsWith(line, "#EXTINF") then st.(pending := ParseLine(line))
    else if !StartsWith(line, "#") && Truthy(st.pending.name) then
      var p := st.pending;
      var ch := Channel(p.name.value, line, GroupOrNone(p.group), p.logo);
      ScanState(NoInfo, st.emitted + [Emission(ch, p.group)])
    else st
  }

  /** The loop run over `lines` from the start. */
  function Scan(lines: seq<string>): ScanState
    decreases |lines|
  {
    if lines == [] then ScanStart
    else Step(Scan(lines[..|lines| - 1]), lines[|lines| - 1])
  }

  lemma ScanSnoc(lines: seq<string>, l: string)
    ensures Scan(lines + [l]) == Step(Scan(lines), l)
  {
    assert (lines + [l])[..|lines|] == lines;
  }

  /** Lines the loop passes over: blank ones and comments other than `#EXTINF`. */
  predicate IsNoise(raw: string) {
    var line := Strip(raw);
    line == "" || (StartsWith(line, "#") && !StartsWith(line, "#EXTINF"))
  }

  /** An `#EXTINF` line whose name is non-empty. */
  predicate IsNamedInfo(raw: string) {
    var line := Strip(raw);
    StartsWith(line, "#EXTINF") && Truthy(ParseLine(line).name)
  }

  /** A line holding a playback URL: non-blank and not a comment. */
  predicate IsUrl(raw: string) {
    var line := Strip(raw);
    line != "" && !StartsWith(line, "#")
  }

  /** An `#EXTINF` line is a comment line. */
  lemma InfoIsComment(line: string)
    requires StartsWith(line, "#EXTINF")
    ensures StartsWith(line, "#")
  {
    assert line[0] == "#EXTINF"[0];
  }

  lemma StepNoise(st: ScanState, l: string)
    requires IsNoise(l)
    ensures Step(st, l) == st
  {
  }

  lemma NoiseSnoc(lines: seq<string>, l: string)
    requires IsNoise(l)
    ensures Scan(lines + [l]) == Scan(lines)
  {
    ScanSnoc(lines, l);
    StepNoise(Scan(lines), l);
  }

  /** One more noise line after `lines + front` changes nothing. */
  lemma NoiseLast(lines: seq<string>, front: seq<string>, last: string)
    requires IsNoise(last) && Scan(lines + front) == Scan(lines)
    ensures Scan(lines + (front + [last])) == Scan(lines)
  {
    assert lines + (front + [last]) == (lines + front) + [last];
    NoiseSnoc(lines + front, last);
  }

  /** The first `n` lines of a run of noise change nothing. */
  lemma {:induction false} NoisePrefix(lines: seq<string>, noise: seq<string>, n: nat)
    requires forall i :: 0 <= i < |noise| ==> IsNoise(noise[i])
    requires n <= |noise|
    ensures Scan(lines + noise[..n]) == Scan(lines)
    decreases n
  {
    if n == 0 {
      assert lines + noise[..0] == lines;
    } else {
      var front, last := noise[..n - 1], noise[n - 1];
      assert noise[..n] == front + [last];
      assert IsNoise(last);
      NoisePrefix(lines, noise, n - 1);
      NoiseLast(lines, front, last);
    }
  }

  /** Blank lines and foreign comments change nothing, however many there are. */
  lemma NoiseIsIgnored(lines: seq<string>, noise: seq<string>)
    requires forall i :: 0 <= i < |noise| ==> IsNoise(noise[i])
    ensures Scan(lines + noise) == Scan(lines)
  {
    NoisePrefix(lines, noise, |noise|);
    assert noise[..|noise|] == noise;
  }

  /** A new `#EXTINF` line replaces whatever was pending, emitted or not. */
  lemma InfoReplacesPending(lines: seq<string>, l: string)
    requires StartsWith(Strip(l), "#EXTINF")
    ensures Scan(lines + [l]) == Scan(lines).(pending := ParseLine(Strip(l)))
  {
    ScanSnoc(lines, l);
  }

  /** A URL line with no pending name, or an empty one, emits nothing. */
  lemma UrlWithoutNameIsDropped(lines: seq<string>, l: string)
    requires IsUrl(l) && !Truthy(Scan(lines).pending.name)
    ensures Scan(lines + [l]) == Scan(lines)
  {
    ScanSnoc(lines, l);
    if StartsWith(Strip(l), "#EXTINF") {
      InfoIsComment(Strip(l));
    }
  }

  lemma StepUrl(st: ScanState, l: string)
    requires IsUrl(l) && Truthy(st.pending.name)
    ensures Step(st, l) == ScanState(NoInfo, st.emitted + [Emission(
              Channel(st.pending.name.value, Strip(l), GroupOrNone(st.pending.group), st.pending.logo),
              st.pending.group)])
  {
    if StartsWith(Strip(l), "#EXTINF") {
      InfoIsComment(Strip(l));
    }
  }

  /** The channel a named info line and a URL line make. */
  function EntryOf(info: string, url: string): Emission
    requires IsNamedInfo(info)
  {
    var p := ParseLine(Strip(info));
    Emission(Channel(p.name.value, Strip(url), GroupOrNone(p.group), p.logo), p.group)
  }

  /** A named info line followed by a URL line emits exactly one channel and resets the pending entry. */
  lemma EntryEmits(lines: seq<string>, info: string, url: string)
    requires IsNamedInfo(info) && IsUrl(url)
    ensures Scan(lines + [info, url]) == ScanState(NoInfo, Scan(lines).emitted + [EntryOf(info, url)])
  {
    ScanSnoc(lines, info);
    assert lines + [info, url] == (lines + [info]) + [url];
    ScanSnoc(lines + [info], url);
    var st1 := Scan(lines).(pending := ParseLine(Strip(info)));
    StepUrl(st1, url);
  }

  /** The lines of a sequence of (info line, URL line) pairs. */
  function Flatten(pairs: seq<(string, string)>): seq<string>
    decreases |pairs|
  {
    if pairs == [] then [] else Flatten(pairs[..|pairs| - 1]) + [pairs[|pairs| - 1].0, pairs[|pairs| - 1].1]
  }

  /** The channels of well-formed entries, one per entry, in order. */
  function Entries(pairs: seq<(string, string)>): (r: seq<Emission>)
    requires forall i :: 0 <= i < |pairs| ==> IsNamedInfo(pairs[i].0) && IsUrl(pairs[i].1)
    decreases |pairs|
  {
    if pairs == [] then []
    else Entries(pairs[..|pairs| - 1]) + [EntryOf(pairs[|pairs| - 1].0, pairs[|pairs| - 1].1)]
  }

  /** N well-formed entries give exactly N channels, in order. */
  lemma {:induction false} EntriesAllEmitted(pairs: seq<(string, string)>)
    requires forall i :: 0 <= i < |pairs| ==> IsNamedInfo(pairs[i].0) && IsUrl(pairs[i].1)
    ensures |Scan(Flatten(pairs)).emitted| == |pairs|
    ensures Scan(Flatten(pairs)).emitted == Entries(pairs)
    ensures Scan(Flatten(pairs)).pending == NoInfo
    decreases |pairs|
  {
    if pairs != [] {
      var front := pairs[..|pairs| - 1];
      var last := pairs[|pairs| - 1];
      EntriesAllEmitted(front);
      assert Flatten(pairs) == Flatten(front) + [last.0, last.1];
      EntryEmits(Flatten(front), last.0, last.1);
      var prev := Scan(Flatten(front)).emitted;
      var cur := Scan(Flatten(pairs)).emitted;
      assert cur == prev + [EntryOf(last.0, last.1)];
      assert Entries(pairs) == Entries(front) + [EntryOf(last.0, last.1)];
    } else {
      assert Flatten(pairs) == [];
    }
  }

  // ---------------------------------------------------------------------------
  // The category index

  /** The channels of the emissions, in order. */
  function Channels(es: seq<Emission>): (r: seq<Channel>)
    ensures |r| == |es|
    ensures forall i :: 0 <= i < |es| ==> r[i] == es[i].channel
    decreases |es|
  {
    if es == [] then [] else Channels(es[..|es| - 1]) + [es[|es| - 1].channel]
  }

  /** What one emission adds to the list of category `g`: once to "all channels", and once
      more to the list named by its truthy group — so twice to "all channels" when its
      group-title is literally that name. */
  function Contribution(e: Emission, g: string): seq<Channel> {
    (if g == CategoryAll then [e.channel] else [])
    + (if Truthy(e.rawGroup) && e.rawGroup.value == g then [e.channel] else [])
  }

  /** The list of category `g`. */
  function ListOf(es: seq<Emission>, g: string): seq<Channel>
    decreases |es|
  {
    if es == [] then [] else ListOf(es[..|es| - 1], g) + Contribution(es[|es| - 1], g)
  }

  /** The keys of the index: "all channels" and every truthy group seen. */
  function Keys(es: seq<Emission>): set<string>
    decreases |es|
  {
    if es == [] then {CategoryAll}
    else Keys(es[..|es| - 1]) + (if Truthy(es[|es| - 1].rawGroup) then {es[|es| - 1].rawGroup.value} else {})
  }

  /** The category index stated declaratively. */
  function CategoryIndex(es: seq<Emission>): (cats: map<string, seq<Channel>>)
    ensures CategoryAll in cats
  {
    AllIsKey(es);
    map g | g in Keys(es) :: ListOf(es, g)
  }

  /** What the loop body does to `categories` when it emits `e`. */
  function Insert(cats: map<string, seq<Channel>>, e: Emission): map<string, seq<Channel>>
    requires CategoryAll in cats
  {
    var c1 := cats[CategoryAll := cats[CategoryAll] + [e.channel]];
    if Truthy(e.rawGroup) then
      var g := e.rawGroup.value;
      c1[g := (if g in c1 then c1[g] else []) + [e.channel]]
    else c1
  }

  lemma {:induction false} OutsideKeysEmpty(es: seq<Emission>, g: string)
    requires g !in Keys(es)
    ensures ListOf(es, g) == []
    decreases |es|
  {
    if es != [] {
      OutsideKeysEmpty(es[..|es| - 1], g);
    }
  }

  lemma {:induction false} AllIsKey(es: seq<Emission>)
    ensures CategoryAll in Keys(es)
    decreases |es|
  {
    if es != [] {
      AllIsKey(es[..|es| - 1]);
    }
  }

  lemma ListSnoc(es: seq<Emission>, e: Emission, g: string)
    ensures ListOf(es + [e], g) == ListOf(es, g) + Contribution(e, g)
    ensures Keys(es + [e]) == Keys(es) + (if Truthy(e.rawGroup) then {e.rawGroup.value} else {})
  {
    assert (es + [e])[..|es|] == es;
  }

  /** The lists and keys of a concatenation are built from its two parts. */
  lemma {:induction false} ListAppend(a: seq<Emission>, b: seq<Emission>, g: string)
    ensures ListOf(a + b, g) == ListOf(a, g) + ListOf(b, g)
    ensures Keys(a + b) == Keys(a) + Keys(b)
    decreases |b|
  {
    if b == [] {
      assert a + b == a;
      AllIsKey(a);
    } else {
      var front, last := b[..|b| - 1], b[|b| - 1];
      assert a + b == (a + front) + [last];
      assert b == front + [last];
      ListSnoc(a + front, last, g);
      ListSnoc(front, last, g);
      ListAppend(a, front, g);
    }
  }

  lemma IndexStepAt(es: seq<Emission>, e: Emission, g: string)
    requires g in Keys(es + [e])
    ensures g in Insert(CategoryIndex(es), e)
    ensures CategoryIndex(es + [e])[g] == Insert(CategoryIndex(es), e)[g]
  {
    ListSnoc(es, e, g);
    if g !in Keys(es) {
      OutsideKeysEmpty(es, g);
    }
  }

  /** Appending one channel to the lists, as the loop does, keeps the index equal to its declarative form. */
  lemma IndexStep(es: seq<Emission>, e: Emission)
    ensures CategoryIndex(es + [e]) == Insert(CategoryIndex(es), e)
  {
    var lhs, rhs := CategoryIndex(es + [e]), Insert(CategoryIndex(es), e);
    ListSnoc(es, e, CategoryAll);
    assert lhs.Keys == rhs.Keys;
    forall g | g in lhs.Keys ensures lhs[g] == rhs[g] {
      IndexStepAt(es, e, g);
    }
  }

  /** No emission's group-title is literally "all channels". */
  predicate NoAllGroup(es: seq<Emission>) {
    forall i :: 0 <= i < |es| ==> es[i].rawGroup != Some(CategoryAll)
  }

  /** "All channels" lists every channel, in source order, unless a group-title names it. */
  lemma {:induction false} AllListIsChannels(es: seq<Emission>)
    requires NoAllGroup(es)
    ensures CategoryIndex(es)[CategoryAll] == Channels(es)
    decreases |es|
  {
    AllIsKey(es);
    if es != [] {
      AllListIsChannels(es[..|es| - 1]);
    }
  }

  /** Number of emissions whose group-title is `g` (truthy). */
  function CountGroup(es: seq<Emission>, g: string): nat
    decreases |es|
  {
    if es == [] then 0
    else CountGroup(es[..|es| - 1], g) + (if Truthy(es[|es| - 1].rawGroup) && es[|es| - 1].rawGroup.value == g then 1 else 0)
  }

  /** Every list other than "all channels" holds as many channels as have a group-title naming it;
      "all channels" holds every channel, twice those whose group-title is its name. */
  lemma {:induction false} ListShape(es: seq<Emission>, g: string)
    ensures g != CategoryAll ==> |ListOf(es, g)| == CountGroup(es, g)
    ensures g == CategoryAll ==> |ListOf(es, g)| == |es| + CountGroup(es, g)
    decreases |es|
  {
    if es != [] {
      ListShape(es[..|es| - 1], g);
    }
  }

  /** Every channel in the list of a category other than "all channels" carries that group. */
  lemma {:induction false} ListHomogeneous(es: seq<Emission>, g: string)
    requires GroupsConsistent(es)
    requires g != CategoryAll
    ensures forall c :: c in ListOf(es, g) ==> c.group == g
    decreases |es|
  {
    if es != [] {
      ListHomogeneous(es[..|es| - 1], g);
    }
  }

  /** A key other than "all channels" is a group some channel has. */
  lemma {:induction false} KeysAreGroups(es: seq<Emission>, g: string)
    requires g in Keys(es) && g != CategoryAll
    ensures CountGroup(es, g) > 0
    decreases |es|
  {
    if es != [] && g in Keys(es[..|es| - 1]) {
      KeysAreGroups(es[..|es| - 1], g);
    }
  }

  /** Each emitted channel carries the group its raw group-title gives it. */
  predicate GroupsConsistent(es: seq<Emission>) {
    forall i :: 0 <= i < |es| ==> es[i].channel.group == GroupOrNone(es[i].rawGroup)
  }

  /** The loop only ever emits channels whose group follows from their group-title. */
  lemma {:induction false} ScanGroupsConsistent(lines: seq<string>)
    ensures GroupsConsistent(Scan(lines).emitted)
    decreases |lines|
  {
    if lines != [] {
      ScanGroupsConsistent(lines[..|lines| - 1]);
    }
  }

  /** A channel without a usable group-title is filed under the uncategorised group name, yet only
      "all channels" and a list literally named after that group can hold it. */
  lemma UngroupedChannel(es: seq<Emission>, i: nat)
    requires GroupsConsistent(es)
    requires i < |es| && !Truthy(es[i].rawGroup)
    ensures es[i].channel.group == CategoryNone
    ensures forall g :: g in CategoryIndex(es) && g != CategoryAll && g != CategoryNone ==>
              es[i].channel !in CategoryIndex(es)[g]
  {
    forall g | g in CategoryIndex(es) && g != CategoryAll && g != CategoryNone
      ensures es[i].channel !in CategoryIndex(es)[g]
    {
      ListHomogeneous(es, g);
    }
  }

  /** A lone emission without a truthy group adds no key and lies only in "all channels". */
  lemma UngroupedSingle(e: Emission, g: string)
    requires !Truthy(e.rawGroup) && g != CategoryAll
    ensures ListOf([e], g) == [] && Keys([e]) == {CategoryAll}
  {
    ListSnoc([], e, g);
    assert [] + [e] == [e];
  }

  /** Taking one channel without a truthy group out of the emissions changes no key and no list
      other than "all channels": that channel object was appended to no other list. */
  lemma UngroupedOnlyInAll(es: seq<Emission>, i: nat, g: string)
    requires i < |es| && !Truthy(es[i].rawGroup) && g != CategoryAll
    ensures Keys(es) == Keys(es[..i] + es[i + 1..])
    ensures ListOf(es, g) == ListOf(es[..i] + es[i + 1..], g)
  {
    var before, e, after := es[..i], es[i], es[i + 1..];
    assert es == before + ([e] + after);
    UngroupedSingle(e, g);
    AllIsKey(after);
    ListAppend([e], after, g);
    assert ListOf([e] + after, g) == ListOf(after, g) && Keys([e] + after) == Keys(after);
    ListAppend(before, [e] + after, g);
    ListAppend(before, after, g);
  }
}
