/**
 * The player's channel-icon bookkeeping: the cache of fetched icons, the fetches in flight
 * (at most five), the FIFO queue of requests waiting for a slot, the counters, and the
 * closing flag. Each event of the source (a request from the channel list, a timer firing,
 * a fetch completing, the list being cleared, cleanup and close) is a pure transition on
 * `IconState`; the class `IconManager` performs the same transitions in place.
 */
module Icons {
  import opened Wrappers

  /** `max_concurrent_downloads`. */
  const MaxConcurrent: nat := 5

  /** A row of the channel list; `NoItem` stands for `None`. `generation` counts how often the
      list has been rebuilt, so rows of an earlier list are different items. The state does not
      record the current generation: after `ClearItems` a caller passes items of a new
      generation, and a request for an item of a cleared list is treated as live. */
  datatype ListItem = NoItem | Item(generation: nat, row: nat)

  /** An icon: the painted fallback or a decoded picture. */
  datatype Icon = Fallback | Picture(image: int)

  /** What a fetch delivers: a null pixmap (undecodable data) or a picture. */
  datatype Pixmap = NullPixmap | Image(image: int)

  /** A queued request: the URL, the channel name and the list item to decorate. */
  datatype QueueEntry = QueueEntry(url: string, name: string, item: ListItem)

  /** A fetch in flight, with the item its completion will decorate. */
  datatype Fetch = Fetch(name: string, item: ListItem)

  datatype Stats = Stats(loaded: nat, failed: nat, cache: nat)

  const NoStats: Stats := Stats(0, 0, 0)

  datatype IconState = IconState(
    cache: map<string, Icon>,       // channel_icons
    pending: map<string, Fetch>,    // pending_icon_downloads
    queue: seq<QueueEntry>,         // icon_download_queue
    stats: Stats,                   // icon_stats
    closing: bool,                  // _is_closing
    timers: nat,                    // single-shot timers armed and not yet fired
    shown: map<ListItem, Icon>)     // the items of the channel list and the icon each shows

  const Initial: IconState := IconState(map[], map[], [], NoStats, false, 0, map[])

  /** The bookkeeping invariant: the cap holds, a URL is never both cached and in flight, and
      every fetch in flight will decorate a real item. */
  predicate Inv(st: IconState) {
    && |st.pending| <= MaxConcurrent
    && st.pending.Keys !! st.cache.Keys
    && forall u :: u in st.pending ==> st.pending[u].item.Item?
  }

  /** `a` is what remains of `b` after some elements were taken from its front. */
  predicate IsSuffix<T(==)>(a: seq<T>, b: seq<T>) {
    |a| <= |b| && a == b[|b| - |a|..]
  }

  // ---------------------------------------------------------------------------
  // Transitions

  /** `get_channel_icon(logo_url, channel_name, item)`. Every caller passes a real item; for
      `NoItem` the source would fail at `setIcon` before queueing, while this transition queues
      the entry and the queue run later drops it. */
  function Request(st: IconState, logo: Option<string>, name: string, item: ListItem): IconState {
    var s1 := st.(shown := st.shown[item := Fallback]);
    if !Truthy(logo) then s1
    else
      var url := logo.value;
      if url in st.cache then
        s1.(shown := s1.shown[item := st.cache[url]], stats := st.stats.(cache := st.stats.cache + 1))
      else if url in st.pending then s1
      else s1.(queue := st.queue + [QueueEntry(url, name, item)], timers := st.timers + 1)
  }

  /** The `while` loop of `_process_download_queue` on the fetches in flight and the queue:
      take entries from the front while a slot is free, dropping those whose URL is in flight
      or cached or whose item is `None`, and starting a fetch for every other one. */
  function DrainQueue(pending: map<string, Fetch>, queue: seq<QueueEntry>, cache: map<string, Icon>)
    : (r: (map<string, Fetch>, seq<QueueEntry>))
    ensures IsSuffix(r.1, queue)
    ensures r.1 == [] || |r.0| >= MaxConcurrent
    ensures forall u :: u in pending ==> u in r.0 && r.0[u] == pending[u]
    decreases |queue|
  {
    if |pending| >= MaxConcurrent || queue == [] then (pending, queue)
    else
      var e := queue[0];
      assert queue[1..] == queue[|queue| - |queue[1..]|..];
      if e.url in pending || e.url in cache || e.item.NoItem? then DrainQueue(pending, queue[1..], cache)
      else DrainQueue(pending[e.url := Fetch(e.name, e.item)], queue[1..], cache)
  }

  /** The queue run respects the cap and starts fetches only for uncached URLs of real items. */
  lemma {:induction false} DrainQueueSafe(pending: map<string, Fetch>, queue: seq<QueueEntry>, cache: map<string, Icon>)
    ensures var r := DrainQueue(pending, queue, cache);
      && (|pending| <= MaxConcurrent ==> |r.0| <= MaxConcurrent)
      && (forall u :: u in r.0 && u !in pending ==> u !in cache && r.0[u].item.Item?)
    decreases |queue|
  {
    if |pending| < MaxConcurrent && queue != [] {
      var e := queue[0];
      if e.url in pending || e.url in cache || e.item.NoItem? {
        DrainQueueSafe(pending, queue[1..], cache);
      } else {
        var p := pending[e.url := Fetch(e.name, e.item)];
        assert |p| == |pending| + 1;
        DrainQueueSafe(p, queue[1..], cache);
      }
    }
  }

  /** Every fetch the queue run starts comes from an entry it took from the front of the queue,
      with that entry's name and item. */
  lemma {:induction false} DrainStartsFromQueue(pending: map<string, Fetch>, queue: seq<QueueEntry>, cache: map<string, Icon>)
    ensures var r := DrainQueue(pending, queue, cache);
      forall u :: u in r.0 && u !in pending ==>
        QueueEntry(u, r.0[u].name, r.0[u].item) in queue[..|queue| - |r.1|]
    decreases |queue|
  {
    if |pending| < MaxConcurrent && queue != [] {
      var e := queue[0];
      var rest := queue[1..];
      var r := DrainQueue(pending, queue, cache);
      var k := |rest| - |r.1|;
      SliceAfterHead(queue, k);
      if e.url in pending || e.url in cache || e.item.NoItem? {
        assert r == DrainQueue(pending, rest, cache);
        DrainStartsFromQueue(pending, rest, cache);
      } else {
        var p := pending[e.url := Fetch(e.name, e.item)];
        assert r == DrainQueue(p, rest, cache);
        DrainStartsFromQueue(p, rest, cache);
        assert e.url in r.0 && r.0[e.url] == Fetch(e.name, e.item);
        assert QueueEntry(e.url, e.name, e.item) == queue[..k + 1][0];
      }
    }
  }

  lemma SliceAfterHead<T>(s: seq<T>, k: nat)
    requires 0 < |s| && k < |s|
    ensures s[..k + 1] == [s[0]] + s[1..][..k]
  {
  }

  /** No entry the queue run takes is lost: each one is in flight afterwards, or was dropped
      because its URL is cached or its item is `None`. */
  lemma {:induction false} DrainNoEntryLost(pending: map<string, Fetch>, queue: seq<QueueEntry>, cache: map<string, Icon>)
    ensures var r := DrainQueue(pending, queue, cache);
      forall e :: e in queue[..|queue| - |r.1|] ==> e.url in r.0 || e.url in cache || e.item.NoItem?
    decreases |queue|
  {
    if |pending| < MaxConcurrent && queue != [] {
      var e := queue[0];
      var rest := queue[1..];
      var r := DrainQueue(pending, queue, cache);
      var k := |rest| - |r.1|;
      SliceAfterHead(queue, k);
      if e.url in pending || e.url in cache || e.item.NoItem? {
        assert r == DrainQueue(pending, rest, cache);
        DrainNoEntryLost(pending, rest, cache);
      } else {
        var p := pending[e.url := Fetch(e.name, e.item)];
        assert r == DrainQueue(p, rest, cache);
        DrainNoEntryLost(p, rest, cache);
        assert e.url in r.0;
      }
    }
  }

  /** The first live entry the queue run takes for a URL not yet in flight or cached starts that
      URL's fetch, and no later entry for the same URL replaces it. */
  lemma {:induction false} DrainFirstEntryFetched(pending: map<string, Fetch>, queue: seq<QueueEntry>, cache: map<string, Icon>, i: nat)
    requires i < |queue| - |DrainQueue(pending, queue, cache).1|
    requires queue[i].url !in pending && queue[i].url !in cache && queue[i].item.Item?
    requires forall j :: 0 <= j < i ==> queue[j].url != queue[i].url || queue[j].item.NoItem?
    ensures var r := DrainQueue(pending, queue, cache);
      queue[i].url in r.0 && r.0[queue[i].url] == Fetch(queue[i].name, queue[i].item)
    decreases |queue|
  {
    var e := queue[0];
    var rest := queue[1..];
    var skip := e.url in pending || e.url in cache || e.item.NoItem?;
    var p := if skip then pending else pending[e.url := Fetch(e.name, e.item)];
    assert DrainQueue(pending, queue, cache) == DrainQueue(p, rest, cache);
    if i > 0 {
      assert queue[i] == rest[i - 1];
      forall j | 0 <= j < i - 1
        ensures rest[j].url != rest[i - 1].url || rest[j].item.NoItem?
      {
        assert rest[j] == queue[j + 1];
      }
      assert skip || e.url != queue[i].url;
      DrainFirstEntryFetched(p, rest, cache, i - 1);
    }
  }

  /** The queue run on the whole state. */
  function Drain(st: IconState): (r: IconState)
    ensures r.cache == st.cache && r.stats == st.stats && r.closing == st.closing
    ensures r.timers == st.timers && r.shown == st.shown
  {
    var d := DrainQueue(st.pending, st.queue, st.cache);
    st.(pending := d.0, queue := d.1)
  }

  /** `_process_download_queue`: nothing happens once the player is closing. */
  function ProcessQueue(st: IconState): IconState {
    if st.closing then st else Drain(st)
  }

  /** One of the armed 100 ms timers fires and runs the queue. */
  function TimerFired(st: IconState): IconState
    requires st.timers > 0
  {
    ProcessQueue(st.(timers := st.timers - 1))
  }

  /** The icon a completed fetch yields: the picture, or the fallback for a null pixmap. */
  function IconOf(pixmap: Pixmap): Icon {
    match pixmap
    case NullPixmap => Fallback
    case Image(img) => Picture(img)
  }

  /** The body of `_on_icon_loaded` before its `finally`: release the slot, then, for a real
      item, cache the icon and, while the item still exists, show it and count the outcome. */
  function Record(st: IconState, url: string, pixmap: Pixmap, item: ListItem): IconState {
    var s1 := st.(pending := st.pending - {url});
    if item.NoItem? then s1
    else
      var icon := IconOf(pixmap);
      var s2 := s1.(cache := s1.cache[url := icon]);
      if item !in s2.shown then s2
      else if pixmap.Image? then
        s2.(shown := s2.shown[item := icon], stats := s2.stats.(loaded := s2.stats.loaded + 1))
      else
        s2.(shown := s2.shown[item := icon], stats := s2.stats.(failed := s2.stats.failed + 1))
  }

  /** The end of the `finally`: counters back to zero once nothing is in flight or waiting. */
  function Settle(st: IconState): IconState {
    if st.pending == map[] && st.queue == [] && st.stats.loaded + st.stats.failed > 0
    then st.(stats := NoStats) else st
  }

  /** `_on_icon_loaded(url, pixmap, item)`: a fetch delivered its outcome. */
  function Loaded(st: IconState, url: string, pixmap: Pixmap, item: ListItem): IconState {
    if st.closing then st else Settle(ProcessQueue(Record(st, url, pixmap, item)))
  }

  /** `channel_list.clear()`: every item of the list is deleted. */
  function ClearItems(st: IconState): IconState {
    st.(shown := map[])
  }

  /** `_cleanup_channels_and_threads`: fetches in flight are stopped (they never call back)
      and everything is forgotten. */
  function Cleanup(st: IconState): (r: IconState)
    ensures r.pending == map[] && r.cache == map[] && r.queue == [] && r.stats == NoStats
    ensures r.closing == st.closing && r.shown == st.shown && r.timers == st.timers
  {
    st.(pending := map[], cache := map[], queue := [], stats := NoStats)
  }

  /** The icon part of `closeEvent`. */
  function Close(st: IconState): IconState {
    Cleanup(st.(closing := true))
  }

  // ---------------------------------------------------------------------------
  // The invariant is kept by every transition

  lemma RequestKeepsInv(st: IconState, logo: Option<string>, name: string, item: ListItem)
    requires Inv(st)
    ensures Inv(Request(st, logo, name, item))
  {
  }

  lemma {:induction false} DrainKeepsInv(st: IconState)
    requires Inv(st)
    ensures Inv(Drain(st))
  {
    var r := Drain(st);
    DrainQueueSafe(st.pending, st.queue, st.cache);
    forall u | u in r.pending ensures u !in r.cache && r.pending[u].item.Item? {
      if u in st.pending {
        assert r.pending[u] == st.pending[u];
      }
    }
  }

  lemma TimerKeepsInv(st: IconState)
    requires Inv(st) && st.timers > 0
    ensures Inv(TimerFired(st))
  {
    if !st.closing {
      DrainKeepsInv(st.(timers := st.timers - 1));
    }
  }

  lemma RecordKeepsInv(st: IconState, url: string, pixmap: Pixmap, item: ListItem)
    requires Inv(st)
    ensures Inv(Record(st, url, pixmap, item))
  {
    var s1 := st.(pending := st.pending - {url});
    assert |s1.pending| <= |st.pending| by {
      assert s1.pending.Keys <= st.pending.Keys;
      SubsetCard(s1.pending.Keys, st.pending.Keys);
    }
  }

  lemma LoadedKeepsInv(st: IconState, url: string, pixmap: Pixmap, item: ListItem)
    requires Inv(st)
    ensures Inv(Loaded(st, url, pixmap, item))
  {
    if !st.closing {
      RecordKeepsInv(st, url, pixmap, item);
      DrainKeepsInv(Record(st, url, pixmap, item));
    }
  }

  lemma CleanupKeepsInv(st: IconState)
    ensures Inv(Cleanup(st)) && Inv(Close(st)) && Inv(Initial)
  {
  }

  // ---------------------------------------------------------------------------
  // Requests

  /** A channel without a logo URL, or with an empty one, shows the fallback and never queues. */
  lemma NoUrlNeverQueues(st: IconState, logo: Option<string>, name: string, item: ListItem)
    requires !Truthy(logo)
    ensures var r := Request(st, logo, name, item);
      r.queue == st.queue && r.pending == st.pending && r.timers == st.timers
      && r.stats == st.stats && r.shown[item] == Fallback
  {
  }

  /** A cached URL is served from the cache: no queueing, no fetch, one more cache hit. */
  lemma CachedUrlServedFromCache(st: IconState, url: string, name: string, item: ListItem)
    requires url in st.cache && url != ""
    ensures var r := Request(st, Some(url), name, item);
      r.queue == st.queue && r.pending == st.pending && r.cache == st.cache
      && r.shown[item] == st.cache[url] && r.stats.cache == st.stats.cache + 1
      && r.stats.loaded == st.stats.loaded && r.stats.failed == st.stats.failed
  {
  }

  /** An uncached URL not in flight joins the back of the queue and arms one timer. */
  lemma NewUrlIsQueued(st: IconState, url: string, name: string, item: ListItem)
    requires url != "" && url !in st.cache && url !in st.pending
    ensures var r := Request(st, Some(url), name, item);
      r.queue == st.queue + [QueueEntry(url, name, item)] && r.timers == st.timers + 1
      && r.pending == st.pending && r.shown[item] == Fallback
  {
  }

  /** A cached URL is never fetched again while it stays cached. */
  lemma CachedNeverFetched(st: IconState, u: string)
    requires Inv(st) && u in st.cache
    ensures u !in Drain(st).pending && u !in ProcessQueue(st).pending
  {
    DrainQueueSafe(st.pending, st.queue, st.cache);
  }

  /** The queue run consumes the queue from its front, in order; every fetch it starts is for an
      entry it consumed; and it stops only when all slots are taken or the queue is empty. */
  lemma DrainTakesFromFront(st: IconState)
    ensures var r := Drain(st);
      var taken := st.queue[..|st.queue| - |r.queue|];
      && st.queue == taken + r.queue
      && (forall u :: u in r.pending && u !in st.pending ==>
            QueueEntry(u, r.pending[u].name, r.pending[u].item) in taken)
      && (forall e :: e in taken && e.item.Item? && e.url !in st.cache ==> e.url in r.pending)
      && (r.queue == [] || |r.pending| >= MaxConcurrent)
  {
    DrainStartsFromQueue(st.pending, st.queue, st.cache);
    DrainNoEntryLost(st.pending, st.queue, st.cache);
    var r := Drain(st);
    assert st.queue == st.queue[..|st.queue| - |r.queue|] + r.queue;
  }

  // ---------------------------------------------------------------------------
  // Completions

  /** When not closing, a completed fetch for a real item frees its slot and caches its outcome
      (the fallback for a null pixmap), so the URL is never fetched again. */
  lemma LoadedCachesOutcome(st: IconState, url: string, pixmap: Pixmap, item: ListItem)
    requires !st.closing && item.Item?
    ensures var r := Loaded(st, url, pixmap, item);
      url !in r.pending && url in r.cache && r.cache[url] == IconOf(pixmap)
  {
    var s := Record(st, url, pixmap, item);
    assert url in s.cache && url !in s.pending;
    DrainQueueSafe(s.pending, s.queue, s.cache);
    assert url !in Drain(s).pending;
  }

  /** A completion for an item still in the list shows its icon and counts exactly one of
      loaded or failed; the counters are reset instead exactly when nothing is left in flight
      or waiting. */
  lemma LoadedCountsOnce(st: IconState, url: string, pixmap: Pixmap, item: ListItem)
    requires !st.closing && item.Item? && item in st.shown
    ensures var r := Loaded(st, url, pixmap, item);
      && r.shown[item] == IconOf(pixmap)
      && (if r.pending == map[] && r.queue == [] then r.stats == NoStats
          else if pixmap.Image? then r.stats == st.stats.(loaded := st.stats.loaded + 1)
          else r.stats == st.stats.(failed := st.stats.failed + 1))
  {
    var s := Record(st, url, pixmap, item);
    assert Drain(s).stats == s.stats && Drain(s).shown == s.shown;
  }

  /** A completion for an item that has left the list counts nothing and changes no item; the
      counters are reset only when nothing is left in flight or waiting and something was
      counted before. */
  lemma LoadedForDeletedItem(st: IconState, url: string, pixmap: Pixmap, item: ListItem)
    requires !st.closing && item !in st.shown
    ensures var r := Loaded(st, url, pixmap, item);
      && r.shown == st.shown
      && (if r.pending == map[] && r.queue == [] && st.stats.loaded + st.stats.failed > 0
          then r.stats == NoStats else r.stats == st.stats)
  {
    var s := Record(st, url, pixmap, item);
    assert Drain(s).stats == s.stats && Drain(s).shown == s.shown;
  }

  /** Once nothing is in flight or waiting after a completion, the counters are zero. */
  lemma IdleMeansReset(st: IconState, url: string, pixmap: Pixmap, item: ListItem)
    requires !st.closing
    ensures var r := Loaded(st, url, pixmap, item);
      r.pending == map[] && r.queue == [] ==> r.stats.loaded + r.stats.failed == 0
  {
  }

  /** After cleanup or close nothing is cached, in flight or waiting, and the counters are zero;
      once closing, queue runs and completions change nothing. */
  lemma {:induction false} ClosedIsInert(st: IconState, url: string, pixmap: Pixmap, item: ListItem)
    ensures var c := Close(st);
      c.closing && c.pending == map[] && c.cache == map[] && c.queue == [] && c.stats == NoStats
      && ProcessQueue(c) == c && Loaded(c, url, pixmap, item) == c
  {
  }

  // ---------------------------------------------------------------------------
  // Behaviours of the code as written

  /** A fetch that never calls back keeps its URL in flight through requests, queue runs and
      list rebuilds. */
  lemma LostFetchHoldsSlot(st: IconState, u: string, logo: Option<string>, name: string, item: ListItem)
    requires u in st.pending
    ensures u in Request(st, logo, name, item).pending
    ensures u in ProcessQueue(st).pending
    ensures st.timers > 0 ==> u in TimerFired(st).pending
    ensures u in ClearItems(st).pending
  {
    if !st.closing {
      assert u in Drain(st).pending;
      if st.timers > 0 {
        assert u in Drain(st.(timers := st.timers - 1)).pending;
      }
    }
  }

  /** ... and through the completion of any other fetch. */
  lemma LostFetchSurvivesOthers(st: IconState, u: string, other: string, pixmap: Pixmap, oitem: ListItem)
    requires u in st.pending && other != u
    ensures u in Loaded(st, other, pixmap, oitem).pending
  {
    if !st.closing {
      var s := Record(st, other, pixmap, oitem);
      assert u in s.pending;
      assert u in Drain(s).pending;
    }
  }

  /** With the five slots held by fetches that never call back, a new request waits in the
      queue for good: its timer fires and nothing starts. */
  lemma FullSlotsBlockQueue(st: IconState, url: string, name: string, item: ListItem)
    requires Inv(st) && |st.pending| == MaxConcurrent
    requires url != "" && url !in st.cache && url !in st.pending
    ensures var r := TimerFired(Request(st, Some(url), name, item));
      r.pending == st.pending && r.queue == st.queue + [QueueEntry(url, name, item)]
  {
  }

  /** A second item asking for a URL already in flight keeps the fallback icon: it is not queued,
      and the completion of that fetch decorates only the first item. */
  lemma SecondRequesterKeepsFallback(st: IconState, url: string, name: string, item: ListItem,
                                     pixmap: Pixmap)
    requires url != "" && url in st.pending && url !in st.cache && st.pending[url].item != item
    ensures var r := Request(st, Some(url), name, item);
      r.queue == st.queue && r.pending == st.pending && r.shown[item] == Fallback
      && Loaded(r, url, pixmap, st.pending[url].item).shown[item] == Fallback
  {
    var r := Request(st, Some(url), name, item);
    var first := st.pending[url].item;
    if !r.closing {
      var s := Record(r, url, pixmap, first);
      assert s.shown[item] == Fallback;
      assert Drain(s).shown == s.shown;
    }
  }

  /** A URL queued twice is fetched once per run: when the first of two entries for it is the
      first live one and both are taken, the fetch in flight carries the first entry's name and
      item, so the later entry's item is never given the icon. */
  lemma QueuedTwiceFetchedOnce(st: IconState, i: nat, j: nat)
    requires i < j < |st.queue| - |Drain(st).queue|
    requires st.queue[i].url == st.queue[j].url
    requires st.queue[i].url !in st.pending && st.queue[i].url !in st.cache && st.queue[i].item.Item?
    requires forall k :: 0 <= k < i ==> st.queue[k].url != st.queue[i].url || st.queue[k].item.NoItem?
    ensures var r := Drain(st);
      st.queue[j].url in r.pending && r.pending[st.queue[j].url] == Fetch(st.queue[i].name, st.queue[i].item)
  {
    DrainFirstEntryFetched(st.pending, st.queue, st.cache, i);
  }

  // ---------------------------------------------------------------------------
  // The same transitions, in place

  class IconManager {
    var icons: map<string, Icon>
    var pending: map<string, Fetch>
    var queue: seq<QueueEntry>
    var stats: Stats
    var closing: bool
    var timers: nat
    var shown: map<ListItem, Icon>

    /** The fields as one value. */
    function State(): IconState
      reads this
    {
      IconState(icons, pending, queue, stats, closing, timers, shown)
    }

    constructor ()
      ensures State() == Initial && Inv(State())
    {
      icons, pending, queue, stats := map[], map[], [], NoStats;
      closing, timers, shown := false, 0, map[];
    }

    method GetChannelIcon(logo: Option<string>, name: string, item: ListItem)
      modifies this
      ensures State() == Request(old(State()), logo, name, item)
      ensures Inv(old(State())) ==> Inv(State())
    {
      if Inv(State()) {
        RequestKeepsInv(State(), logo, name, item);
      }
      shown := shown[item := Fallback];
      if !Truthy(logo) {
        return;
      }
      var url := logo.value;
      if url in icons {
        shown := shown[item := icons[url]];
        stats := stats.(cache := stats.cache + 1);
        return;
      }
      if url in pending {
        return;
      }
      queue := queue + [QueueEntry(url, name, item)];
      timers := timers + 1;
    }

    method ProcessDownloadQueue()
      modifies this
      ensures State() == ProcessQueue(old(State()))
      ensures Inv(old(State())) ==> Inv(State())
    {
      if Inv(State()) {
        DrainKeepsInv(State());
      }
      if closing {
        return;
      }
      while |pending| < MaxConcurrent && queue != []
        invariant Drain(State()) == Drain(old(State()))
        invariant !closing
        decreases |queue|
      {
        var entry := queue[0];
        queue := queue[1..];
        if entry.url in pending || entry.url in icons {
          continue;
        }
        if entry.item.NoItem? {
          continue;
        }
        pending := pending[entry.url := Fetch(entry.name, entry.item)];
      }
    }

    method OnTimer()
      requires timers > 0
      modifies this
      ensures State() == TimerFired(old(State()))
    {
      timers := timers - 1;
      ProcessDownloadQueue();
    }

    method OnIconLoaded(url: string, pixmap: Pixmap, item: ListItem)
      modifies this
      ensures State() == Loaded(old(State()), url, pixmap, item)
      ensures Inv(old(State())) ==> Inv(State())
    {
      if Inv(State()) {
        LoadedKeepsInv(State(), url, pixmap, item);
      }
      if closing {
        return;
      }
      RecordOutcome(url, pixmap, item);
      ProcessDownloadQueue();
      ResetStatsWhenIdle();
    }

    /** The closing statistics block of `_on_icon_loaded`. */
    method ResetStatsWhenIdle()
      modifies this
      ensures State() == Settle(old(State()))
    {
      if pending == map[] && queue == [] && stats.loaded + stats.failed > 0 {
        stats := NoStats;
      }
    }

    /** The `try` block of `_on_icon_loaded`. */
    method RecordOutcome(url: string, pixmap: Pixmap, item: ListItem)
      modifies this
      ensures State() == Record(old(State()), url, pixmap, item)
    {
      pending := pending - {url};
      if item.NoItem? {
        return;
      }
      var icon := IconOf(pixmap);
      icons := icons[url := icon];
      if item !in shown {
        return;
      }
      shown := shown[item := icon];
      if pixmap.Image? {
        stats := stats.(loaded := stats.loaded + 1);
      } else {
        stats := stats.(failed := stats.failed + 1);
      }
    }

    method ClearList()
      modifies this
      ensures State() == ClearItems(old(State()))
    {
      shown := map[];
    }

    method CleanupChannelsAndThreads()
      modifies this
      ensures State() == Cleanup(old(State()))
    {
      pending, icons, queue, stats := map[], map[], [], NoStats;
    }

    method CloseEvent()
      modifies this
      ensures State() == Close(old(State()))
    {
      closing := true;
      CleanupChannelsAndThreads();
    }
  }
}
