/** Collecting candidate videos day by day (collect_all_videos.py): a search
    per day, subscriber counts per channel in batches of 50, an activity check
    per channel, all backed by a channel cache updated in place. */
module ChannelCollector {
  import opened Common

  /** What the cache holds for one channel: its subscriber count and its
      activity verdict, each possibly not yet known. */
  datatype ChannelEntry = ChannelEntry(subscriberCount: Option<int>, isActive: Option<bool>)

  const EmptyEntry := ChannelEntry(None, None)

  /** `channel_cache.get(cid, {})`. */
  function EntryOf(entries: map<string, ChannelEntry>, cid: string): ChannelEntry {
    if cid in entries then entries[cid] else EmptyEntry
  }

  /** The cache holds a subscriber count for `cid`. */
  predicate HasCount(entries: map<string, ChannelEntry>, cid: string) {
    cid in entries && entries[cid].subscriberCount.Some?
  }

  /** The cached count, or 0 when there is none. */
  function CountOr0(entries: map<string, ChannelEntry>, cid: string): int {
    if HasCount(entries, cid) then entries[cid].subscriberCount.value else 0
  }

  /** An item of a `channels().list(part="statistics")` reply: the channel id
      and `statistics.subscriberCount`, `None` when absent. */
  datatype StatItem = StatItem(id: string, subscriberCount: Option<int>)

  /** A search result, and the record `collect_videos` writes for it. */
  datatype VideoInfo = VideoInfo(videoId: string, title: string, channelId: string, channelTitle: string,
                                 publishedAt: string, description: string)

  /** The YouTube Data API as the collector sees it: the videos published in
      a time window (all pages together), the statistics reply for one batch
      of channel ids, and the number of items a channel's activity search
      returns. The last two are also given the number of statistics and
      activity requests made before them, so that asking twice about the
      same channel may get two different answers. */
  datatype Api = Api(
    search: (int, int) -> Result<seq<VideoInfo>, ApiError>,
    statistics: (seq<string>, nat) -> Result<seq<StatItem>, ApiError>,
    activity: (string, nat) -> Result<nat, ApiError>)

  /** The ids that still need a count: those with no entry or no
      `subscriber_count` in it, in input order. */
  function Uncached(channelIds: seq<string>, entries: map<string, ChannelEntry>): seq<string> {
    Filter(channelIds, (cid: string) => !HasCount(entries, cid))
  }

  lemma UncachedIds(channelIds: seq<string>, entries: map<string, ChannelEntry>, cid: string)
    ensures cid in Uncached(channelIds, entries) <==> cid in channelIds && !HasCount(entries, cid)
  {
    FilterMembership(channelIds, (cid: string) => !HasCount(entries, cid), cid);
  }

  /** Storing the counts of one reply, item by item: each sets the entry's
      `subscriber_count` (0 when the reply has none) and keeps the rest of
      the entry. */
  function StoreCounts(entries: map<string, ChannelEntry>, items: seq<StatItem>): map<string, ChannelEntry>
    decreases |items|
  {
    if items == [] then entries
    else
      var cid := items[0].id;
      StoreCounts(entries[cid := EntryOf(entries, cid).(subscriberCount := Some(items[0].subscriberCount.GetOr(0)))], items[1..])
  }

  /** The `k`-th item is the last one naming `cid`. */
  predicate LastNaming(items: seq<StatItem>, k: int, cid: string) {
    0 <= k < |items| && items[k].id == cid && forall m :: k < m < |items| ==> items[m].id != cid
  }

  /** Storing counts only touches the counts: every channel keeps its
      activity verdict, a channel no item names keeps its whole entry, and a
      channel some item names ends with the count of the last item naming
      it (0 when that item has none). */
  lemma {:induction false} StoreCountsEffect(entries: map<string, ChannelEntry>, items: seq<StatItem>, cid: string)
    ensures var after := StoreCounts(entries, items);
      && (cid in after <==> cid in entries || exists k :: 0 <= k < |items| && items[k].id == cid)
      && EntryOf(after, cid).isActive == EntryOf(entries, cid).isActive
      && ((forall k :: 0 <= k < |items| ==> items[k].id != cid) ==> EntryOf(after, cid) == EntryOf(entries, cid))
      && (forall k :: LastNaming(items, k, cid) ==>
            HasCount(after, cid) && after[cid].subscriberCount.value == items[k].subscriberCount.GetOr(0))
    decreases |items|
  {
    if items != [] {
      var c := items[0].id;
      var next := entries[c := EntryOf(entries, c).(subscriberCount := Some(items[0].subscriberCount.GetOr(0)))];
      StoreCountsEffect(next, items[1..], cid);
      if cid != c {
        assert EntryOf(next, cid) == EntryOf(entries, cid);
      }
      forall k | 1 <= k < |items| ensures items[k] == items[1..][k - 1] {
      }
      forall k | LastNaming(items, k, cid)
        ensures HasCount(StoreCounts(entries, items), cid)
        ensures StoreCounts(entries, items)[cid].subscriberCount.value == items[k].subscriberCount.GetOr(0)
      {
        if k > 0 {
          assert LastNaming(items[1..], k - 1, cid);
        }
      }
    }
  }

  /** A count once stored is never removed by storing more. */
  lemma {:induction false} StoreCountsKeepsCount(entries: map<string, ChannelEntry>, items: seq<StatItem>, cid: string)
    requires HasCount(entries, cid)
    ensures HasCount(StoreCounts(entries, items), cid)
    decreases |items|
  {
    if items != [] {
      var c := items[0].id;
      StoreCountsKeepsCount(entries[c := EntryOf(entries, c).(subscriberCount := Some(items[0].subscriberCount.GetOr(0)))], items[1..], cid);
    }
  }

  /** The cache after the batch loop, the error that ended it early, and
      the number of requests made so far. */
  datatype Fetched = Fetched(entries: map<string, ChannelEntry>, raised: Option<ApiError>, calls: nat)

  /** The batch loop of `get_subscriber_count`, starting after `calls`
      requests: a reply stores its counts; a quota error is re-raised and an
      exception other than `HttpError` escapes, each ending the loop; any
      other `HttpError` only loses its batch. */
  function FetchCounts(entries: map<string, ChannelEntry>, batches: seq<seq<string>>,
                       statistics: (seq<string>, nat) -> Result<seq<StatItem>, ApiError>, calls: nat): Fetched
    decreases |batches|
  {
    if batches == [] then Fetched(entries, None, calls)
    else match statistics(batches[0], calls)
      case Err(e) =>
        if Propagates(e) then Fetched(entries, Some(e), calls + 1)
        else FetchCounts(entries, batches[1..], statistics, calls + 1)
      case Ok(items) => FetchCounts(StoreCounts(entries, items), batches[1..], statistics, calls + 1)
  }

  /** Fetching counts keeps every channel's activity verdict and every count
      already cached; it makes one request per batch up to the first error
      that propagates, and only such an error is reported. */
  lemma {:induction false} FetchCountsKeeps(entries: map<string, ChannelEntry>, batches: seq<seq<string>>,
                                            statistics: (seq<string>, nat) -> Result<seq<StatItem>, ApiError>,
                                            calls: nat, cid: string)
    ensures var f := FetchCounts(entries, batches, statistics, calls);
      && EntryOf(f.entries, cid).isActive == EntryOf(entries, cid).isActive
      && (HasCount(entries, cid) ==> HasCount(f.entries, cid))
      && calls <= f.calls <= calls + |batches|
      && (f.raised.None? ==> f.calls == calls + |batches|)
      && (f.raised.Some? ==> Propagates(f.raised.value) && calls < f.calls)
    decreases |batches|
  {
    if batches != [] {
      match statistics(batches[0], calls)
      case Err(e) =>
        if !Propagates(e) {
          FetchCountsKeeps(entries, batches[1..], statistics, calls + 1, cid);
        }
      case Ok(items) =>
        StoreCountsEffect(entries, items, cid);
        if HasCount(entries, cid) {
          StoreCountsKeepsCount(entries, items, cid);
        }
        FetchCountsKeeps(StoreCounts(entries, items), batches[1..], statistics, calls + 1, cid);
    }
  }

  /** The answer of an activity check, the cache it leaves and the number
      of requests made so far. */
  datatype Checked = Checked(answer: Result<bool, ApiError>, entries: map<string, ChannelEntry>, calls: nat)

  /** What `is_channel_active` answers and the cache it leaves: `True` with
      the skip flag; a cached verdict without a search; otherwise whether the
      search, the request numbered `calls`, returns an item, which is then
      cached. A quota error is re-raised and an exception other than
      `HttpError` escapes; any other error answers `False` and caches
      nothing. */
  function ActivityCheck(entries: map<string, ChannelEntry>, cid: string, skip: bool,
                         activity: (string, nat) -> Result<nat, ApiError>, calls: nat): Checked
  {
    if skip then Checked(Ok(true), entries, calls)
    else if cid in entries && entries[cid].isActive.Some? then Checked(Ok(entries[cid].isActive.value), entries, calls)
    else match activity(cid, calls)
      case Err(e) => Checked(if Propagates(e) then Err(e) else Ok(false), entries, calls + 1)
      case Ok(n) => Checked(Ok(n > 0), entries[cid := EntryOf(entries, cid).(isActive := Some(n > 0))], calls + 1)
  }

  /** The activity check changes at most the checked channel's verdict and
      only sets one that was missing: it keeps every count, every other
      channel's entry and every cached verdict, and makes at most one
      request. */
  lemma ActivityCheckIsStable(entries: map<string, ChannelEntry>, cid: string, skip: bool,
                              activity: (string, nat) -> Result<nat, ApiError>, calls: nat, c: string)
    ensures var r := ActivityCheck(entries, cid, skip, activity, calls);
      && CountOr0(r.entries, c) == CountOr0(entries, c)
      && (c != cid ==> EntryOf(r.entries, c) == EntryOf(entries, c))
      && (EntryOf(entries, c).isActive.Some? ==> EntryOf(r.entries, c).isActive == EntryOf(entries, c).isActive)
      && calls <= r.calls <= calls + 1
  {
  }

  /** An answer is remembered unless it came from a failed request: a `True`
      answer leaves the verdict `True` in the cache (without the skip flag),
      and once the verdict is settled a second check, at any later point,
      answers the same without a request. A `False` answer with nothing
      cached comes from a request that failed with an error that does not
      propagate; an error answer is one that propagates, and leaves the
      cache as it was. */
  lemma ActivityCheckRemembers(entries: map<string, ChannelEntry>, cid: string, skip: bool,
                               activity: (string, nat) -> Result<nat, ApiError>, calls: nat, later: nat)
    ensures var r := ActivityCheck(entries, cid, skip, activity, calls);
      && (r.answer == Ok(true) && !skip ==> EntryOf(r.entries, cid).isActive == Some(true))
      && (r.answer.Ok? && (skip || EntryOf(r.entries, cid).isActive.Some?) ==>
            ActivityCheck(r.entries, cid, skip, activity, later) == Checked(r.answer, r.entries, later))
      && (r.answer.Ok? && !skip && EntryOf(r.entries, cid).isActive.None? ==>
            && !r.answer.value && r.calls == calls + 1
            && activity(cid, calls).Err? && !Propagates(activity(cid, calls).error))
      && (r.answer.Err? ==> Propagates(r.answer.error) && r.entries == entries)
  {
  }

  /** The channel cache shared by the collector's calls. */
  class ChannelCache {
    var entries: map<string, ChannelEntry>

    constructor(initial: map<string, ChannelEntry>)
      ensures entries == initial
    {
      entries := initial;
    }

    /** `get_subscriber_count`, called after `calls` requests. The counts of
        the uncached ids are fetched in batches of 50 and stored in the
        cache; then every requested id gets the cached count, or 0. An error
        that propagates is returned (`Err`), leaving the counts stored so
        far. `made` is the number of requests made by then. */
    method GetSubscriberCount(channelIds: seq<string>, statistics: (seq<string>, nat) -> Result<seq<StatItem>, ApiError>,
                              calls: nat)
      returns (r: Result<map<string, int>, ApiError>, made: nat)
      modifies this
      ensures var f := FetchCounts(old(entries), Batches(Uncached(channelIds, old(entries))), statistics, calls);
        && entries == f.entries
        && made == f.calls
        && (r.Err? <==> f.raised.Some?)
        && (r.Err? ==> r.error == f.raised.value)
      ensures r.Ok? ==> forall cid :: cid in channelIds ==> cid in r.value
      ensures r.Ok? ==> forall cid :: cid in r.value ==> r.value[cid] == CountOr0(entries, cid)
    {
      var stats: map<string, int> := map[];
      var uncachedIds := Uncached(channelIds, entries);
      ghost var all := Batches(uncachedIds);
      made := calls;
      var i := 0;
      while i < |uncachedIds|
        invariant FetchCounts(entries, Batches(Suffix(uncachedIds, i)), statistics, made)
               == FetchCounts(old(entries), all, statistics, calls)
        invariant forall cid :: cid in stats ==> HasCount(entries, cid) && entries[cid].subscriberCount.value == stats[cid]
        decreases |uncachedIds| - i
      {
        var batch := uncachedIds[i..Min(i + BatchSize, |uncachedIds|)];
        BatchAt(uncachedIds, i);
        var reply := statistics(batch, made);
        made := made + 1;
        match reply {
          case Err(e) =>
            if Propagates(e) {
              return Err(e), made;
            }
          case Ok(items) =>
            ghost var before := entries;
            for k := 0 to |items|
              invariant StoreCounts(entries, items[k..]) == StoreCounts(before, items)
              invariant forall cid :: cid in stats ==> HasCount(entries, cid) && entries[cid].subscriberCount.value == stats[cid]
            {
              var cid := items[k].id;
              var subs := items[k].subscriberCount.GetOr(0);
              entries := entries[cid := EntryOf(entries, cid).(subscriberCount := Some(subs))];
              stats := stats[cid := subs];
              assert items[k..][1..] == items[k + 1..];
            }
        }
        i := i + BatchSize;
      }
      for j := 0 to |channelIds|
        invariant forall k :: 0 <= k < j ==> channelIds[k] in stats
        invariant forall cid :: cid in stats ==> stats[cid] == CountOr0(entries, cid)
      {
        var cid := channelIds[j];
        if HasCount(entries, cid) {
          stats := stats[cid := entries[cid].subscriberCount.value];
        } else if cid !in stats {
          stats := stats[cid := 0];
        }
      }
      return Ok(stats), made;
    }

    /** `is_channel_active`, called after `calls` requests; `made` is the
        number of requests made by then. */
    method IsChannelActive(cid: string, skip: bool, activity: (string, nat) -> Result<nat, ApiError>, calls: nat)
      returns (r: Result<bool, ApiError>, made: nat)
      modifies this
      ensures Checked(r, entries, made) == ActivityCheck(old(entries), cid, skip, activity, calls)
    {
      if skip {
        return Ok(true), calls;
      }
      if cid in entries && entries[cid].isActive.Some? {
        return Ok(entries[cid].isActive.value), calls;
      }
      var reply := activity(cid, calls);
      match reply {
        case Err(e) =>
          if Propagates(e) {
            return Err(e), calls + 1;
          }
          return Ok(false), calls + 1;
        case Ok(n) =>
          var isActive := n > 0;
          entries := entries[cid := EntryOf(entries, cid).(isActive := Some(isActive))];
          return Ok(isActive), calls + 1;
      }
    }
  }

  /** The distinct channel ids of a day's results, in order of first
      appearance (the source collects them in a set). */
  function ChannelIdsOf(items: seq<VideoInfo>): (r: seq<string>)
    ensures forall cid :: cid in r <==> exists k :: 0 <= k < |items| && items[k].channelId == cid
    ensures forall a, b :: 0 <= a < b < |r| ==> r[a] != r[b]
    decreases |items|
  {
    if items == [] then []
    else
      var before := ChannelIdsOf(items[..|items| - 1]);
      var cid := items[|items| - 1].channelId;
      assert forall k :: 0 <= k < |items| - 1 ==> items[..|items| - 1][k] == items[k];
      if cid in before then before else before + [cid]
  }

  /** The state of a day's filter loop: the videos collected so far, the
      cache, the number of requests made, and the error that stopped the
      collection, if any. */
  datatype DayOutcome = DayOutcome(kept: seq<VideoInfo>, entries: map<string, ChannelEntry>, calls: nat,
                                   raised: Option<ApiError>)

  /** One iteration of the filter loop of `collect_videos`. `counts` is the
      cache as `get_subscriber_count` left it: a channel below the threshold
      is skipped without an activity check; otherwise the video is kept when
      the check answers `True`, and an error the check lets through stops the
      loop. Once stopped, nothing more happens. */
  function FilterStep(counts: map<string, ChannelEntry>, s: DayOutcome, v: VideoInfo, minSubscribers: int,
                      skip: bool, activity: (string, nat) -> Result<nat, ApiError>): DayOutcome
  {
    if s.raised.Some? || CountOr0(counts, v.channelId) < minSubscribers then s
    else
      var c := ActivityCheck(s.entries, v.channelId, skip, activity, s.calls);
      match c.answer
      case Err(e) => DayOutcome(s.kept, c.entries, c.calls, Some(e))
      case Ok(active) => DayOutcome(if active then s.kept + [v] else s.kept, c.entries, c.calls, None)
  }

  /** The filter loop over one day's results, from state `s`. */
  function FilterDay(counts: map<string, ChannelEntry>, s: DayOutcome, items: seq<VideoInfo>, minSubscribers: int,
                     skip: bool, activity: (string, nat) -> Result<nat, ApiError>): DayOutcome
    decreases |items|
  {
    if items == [] then s
    else FilterDay(counts, FilterStep(counts, s, items[0], minSubscribers, skip, activity), items[1..],
                   minSubscribers, skip, activity)
  }

  /** A stopped loop stays stopped and changes nothing. */
  lemma {:induction false} StoppedStays(counts: map<string, ChannelEntry>, s: DayOutcome, items: seq<VideoInfo>,
                                        minSubscribers: int, skip: bool, activity: (string, nat) -> Result<nat, ApiError>)
    requires s.raised.Some?
    ensures FilterDay(counts, s, items, minSubscribers, skip, activity) == s
    decreases |items|
  {
    if items != [] {
      StoppedStays(counts, s, items[1..], minSubscribers, skip, activity);
    }
  }

  /** The loop over one more result is one more iteration after the loop. */
  lemma {:induction false} FilterDaySnoc(counts: map<string, ChannelEntry>, s: DayOutcome, items: seq<VideoInfo>,
                                         v: VideoInfo, minSubscribers: int, skip: bool,
                                         activity: (string, nat) -> Result<nat, ApiError>)
    ensures FilterDay(counts, s, items + [v], minSubscribers, skip, activity)
         == FilterStep(counts, FilterDay(counts, s, items, minSubscribers, skip, activity), v, minSubscribers, skip, activity)
    decreases |items|
  {
    if items == [] {
      assert items + [v] == [v];
    } else {
      assert (items + [v])[1..] == items[1..] + [v];
      FilterDaySnoc(counts, FilterStep(counts, s, items[0], minSubscribers, skip, activity), items[1..], v,
                    minSubscribers, skip, activity);
    }
  }

  /** Each result is decided at its own turn, against the cache and the
      request count the earlier results left: once the loop has stopped, or
      when the channel is below the threshold, nothing changes; otherwise
      the activity check runs, and the video is appended exactly when it
      answers `True`, the loop stopping exactly when it fails. */
  lemma FilterDayPerCall(counts: map<string, ChannelEntry>, s: DayOutcome, items: seq<VideoInfo>, i: nat,
                         minSubscribers: int, skip: bool, activity: (string, nat) -> Result<nat, ApiError>)
    requires i < |items|
    ensures var b := FilterDay(counts, s, items[..i], minSubscribers, skip, activity);
      var a := FilterDay(counts, s, items[..i + 1], minSubscribers, skip, activity);
      var v := items[i];
      var c := ActivityCheck(b.entries, v.channelId, skip, activity, b.calls);
      && (b.raised.Some? || CountOr0(counts, v.channelId) < minSubscribers ==> a == b)
      && (b.raised.None? && CountOr0(counts, v.channelId) >= minSubscribers ==>
            && a.entries == c.entries && a.calls == c.calls
            && a.kept == (if c.answer == Ok(true) then b.kept + [v] else b.kept)
            && (a.raised.Some? <==> c.answer.Err?))
  {
    assert items[..i + 1] == items[..i] + [items[i]];
    FilterDaySnoc(counts, s, items[..i], items[i], minSubscribers, skip, activity);
  }

  /** Whether a video is kept when no request is needed: its channel has
      enough subscribers and, unless the check is skipped, the cached
      verdict is `True`. */
  function KeptWithoutSearch(counts: map<string, ChannelEntry>, entries: map<string, ChannelEntry>, minSubscribers: int,
                             skip: bool): VideoInfo -> bool
  {
    (v: VideoInfo) => CountOr0(counts, v.channelId) >= minSubscribers && (skip || EntryOf(entries, v.channelId).isActive == Some(true))
  }

  /** Every channel with enough subscribers among the results already has a
      settled verdict: the check is skipped, or a verdict is cached. */
  predicate Settled(counts: map<string, ChannelEntry>, entries: map<string, ChannelEntry>, items: seq<VideoInfo>,
                    minSubscribers: int, skip: bool)
  {
    forall k :: 0 <= k < |items| && CountOr0(counts, items[k].channelId) >= minSubscribers ==>
      skip || EntryOf(entries, items[k].channelId).isActive.Some?
  }

  /** When every verdict needed is settled, the filter makes no request,
      changes no cache entry, and keeps, in input order, exactly the results
      whose channel has enough subscribers and a `True` verdict. */
  lemma {:induction false} FilterDayWithoutSearch(counts: map<string, ChannelEntry>, s: DayOutcome, items: seq<VideoInfo>,
                                                  minSubscribers: int, skip: bool,
                                                  activity: (string, nat) -> Result<nat, ApiError>)
    requires s.raised.None?
    requires Settled(counts, s.entries, items, minSubscribers, skip)
    ensures FilterDay(counts, s, items, minSubscribers, skip, activity)
         == DayOutcome(s.kept + Filter(items, KeptWithoutSearch(counts, s.entries, minSubscribers, skip)),
                       s.entries, s.calls, None)
    decreases |items|
  {
    var keep := KeptWithoutSearch(counts, s.entries, minSubscribers, skip);
    if items == [] {
      assert s.kept + [] == s.kept;
    } else {
      var v := items[0];
      var s' := FilterStep(counts, s, v, minSubscribers, skip, activity);
      assert s' == DayOutcome(s.kept + (if keep(v) then [v] else []), s.entries, s.calls, None);
      assert Settled(counts, s.entries, items[1..], minSubscribers, skip) by {
        forall k | 0 <= k < |items[1..]| ensures items[1..][k] == items[k + 1] {
        }
      }
      FilterDayWithoutSearch(counts, s', items[1..], minSubscribers, skip, activity);
      AppendAssoc(s.kept, if keep(v) then [v] else [], Filter(items[1..], keep));
    }
  }

  /** The filter never changes a count, never touches the entry of a
      channel below the threshold (its activity is not checked), never
      changes a cached verdict, and makes at most one request per result. */
  lemma {:induction false} FilterDayCacheEffect(counts: map<string, ChannelEntry>, s: DayOutcome, items: seq<VideoInfo>,
                                                minSubscribers: int, skip: bool,
                                                activity: (string, nat) -> Result<nat, ApiError>, c: string)
    ensures var d := FilterDay(counts, s, items, minSubscribers, skip, activity);
      && CountOr0(d.entries, c) == CountOr0(s.entries, c)
      && (CountOr0(counts, c) < minSubscribers ==> EntryOf(d.entries, c) == EntryOf(s.entries, c))
      && (EntryOf(s.entries, c).isActive.Some? ==> EntryOf(d.entries, c).isActive == EntryOf(s.entries, c).isActive)
      && s.calls <= d.calls <= s.calls + |items|
    decreases |items|
  {
    if items != [] {
      var v := items[0];
      if s.raised.None? && CountOr0(counts, v.channelId) >= minSubscribers {
        ActivityCheckIsStable(s.entries, v.channelId, skip, activity, s.calls, c);
      }
      FilterDayCacheEffect(counts, FilterStep(counts, s, v, minSubscribers, skip, activity), items[1..],
                           minSubscribers, skip, activity, c);
    }
  }

  /** The filter only appends, and only results whose channel has enough
      subscribers and, unless the check is skipped, ends with the verdict
      `True` in the cache. */
  lemma {:induction false} FilterDayKept(counts: map<string, ChannelEntry>, s: DayOutcome, items: seq<VideoInfo>,
                                         minSubscribers: int, skip: bool, activity: (string, nat) -> Result<nat, ApiError>)
    ensures var d := FilterDay(counts, s, items, minSubscribers, skip, activity);
      && |s.kept| <= |d.kept| && d.kept[..|s.kept|] == s.kept
      && forall k :: |s.kept| <= k < |d.kept| ==>
           && d.kept[k] in items
           && CountOr0(counts, d.kept[k].channelId) >= minSubscribers
           && (skip || EntryOf(d.entries, d.kept[k].channelId).isActive == Some(true))
    decreases |items|
  {
    if items != [] {
      var v := items[0];
      var s' := FilterStep(counts, s, v, minSubscribers, skip, activity);
      var d := FilterDay(counts, s', items[1..], minSubscribers, skip, activity);
      FilterDayKept(counts, s', items[1..], minSubscribers, skip, activity);
      if s.raised.None? && CountOr0(counts, v.channelId) >= minSubscribers {
        ActivityCheckRemembers(s.entries, v.channelId, skip, activity, s.calls, s.calls);
      }
      if |s'.kept| > |s.kept| {
        assert s'.kept == s.kept + [v];
        FilterDayCacheEffect(counts, s', items[1..], minSubscribers, skip, activity, v.channelId);
        assert d.kept[|s.kept|] == s'.kept[|s.kept|] == v;
      }
      assert d.kept[..|s.kept|] == s'.kept[..|s.kept|];
    }
  }

  const SecondsPerDay := 86400

  /** The search window of a day, in seconds: from midnight to one second
      before the next midnight. */
  function DayWindow(day: int): (r: (int, int))
    ensures r.0 <= r.1 && r.1 - r.0 == SecondsPerDay - 1
    ensures r.1 + 1 == (day + 1) * SecondsPerDay
  {
    (day * SecondsPerDay, (day + 1) * SecondsPerDay - 1)
  }

  /** One iteration of the day loop, after `calls` requests: any error of
      the search, and an error that propagates out of either helper, end the
      collection. */
  function CollectDay(entries: map<string, ChannelEntry>, day: int, minSubscribers: int, skip: bool, api: Api,
                      acc: seq<VideoInfo>, calls: nat): DayOutcome
  {
    var w := DayWindow(day);
    match api.search(w.0, w.1)
    case Err(e) => DayOutcome(acc, entries, calls, Some(e))
    case Ok(items) =>
      var f := FetchCounts(entries, Batches(Uncached(ChannelIdsOf(items), entries)), api.statistics, calls);
      if f.raised.Some? then DayOutcome(acc, f.entries, f.calls, f.raised)
      else FilterDay(f.entries, DayOutcome(acc, f.entries, f.calls, None), items, minSubscribers, skip, api.activity)
  }

  /** The videos collected, the cache left, and whether an exception other
      than `HttpError` escaped, in which case nothing is written. */
  datatype Collection = Collection(videos: seq<VideoInfo>, entries: map<string, ChannelEntry>, crashed: bool)

  /** The day loop from `day` to `endDay` inclusive, appending to `acc`. */
  function Collect(entries: map<string, ChannelEntry>, day: int, endDay: int, minSubscribers: int, skip: bool,
                   api: Api, acc: seq<VideoInfo>, calls: nat): Collection
    decreases endDay - day
  {
    if day > endDay then Collection(acc, entries, false)
    else
      var r := CollectDay(entries, day, minSubscribers, skip, api, acc, calls);
      if r.raised.Some? then Collection(r.kept, r.entries, r.raised.value.OtherError?)
      else Collect(r.entries, day + 1, endDay, minSubscribers, skip, api, r.kept, r.calls)
  }

  /** A day only appends, and only that day's search results whose channel
      has enough subscribers by the cache. */
  lemma DayKeepsSearchResults(entries: map<string, ChannelEntry>, day: int, minSubscribers: int, skip: bool, api: Api,
                              acc: seq<VideoInfo>, calls: nat)
    ensures var d := CollectDay(entries, day, minSubscribers, skip, api, acc, calls);
      var w := DayWindow(day);
      && |acc| <= |d.kept| && d.kept[..|acc|] == acc
      && forall k :: |acc| <= k < |d.kept| ==>
           && api.search(w.0, w.1).Ok? && d.kept[k] in api.search(w.0, w.1).value
           && CountOr0(d.entries, d.kept[k].channelId) >= minSubscribers
  {
    var w := DayWindow(day);
    if api.search(w.0, w.1).Ok? {
      var items := api.search(w.0, w.1).value;
      var f := FetchCounts(entries, Batches(Uncached(ChannelIdsOf(items), entries)), api.statistics, calls);
      if f.raised.None? {
        var s := DayOutcome(acc, f.entries, f.calls, None);
        var d := FilterDay(f.entries, s, items, minSubscribers, skip, api.activity);
        FilterDayKept(f.entries, s, items, minSubscribers, skip, api.activity);
        forall k | |acc| <= k < |d.kept| ensures CountOr0(d.entries, d.kept[k].channelId) >= minSubscribers {
          FilterDayCacheEffect(f.entries, s, items, minSubscribers, skip, api.activity, d.kept[k].channelId);
        }
      }
    }
  }

  /** Collecting only appends: the videos gathered so far stay, in order,
      and every video added is a search result of one of the days. */
  lemma {:induction false} CollectAppends(entries: map<string, ChannelEntry>, day: int, endDay: int, minSubscribers: int,
                                          skip: bool, api: Api, acc: seq<VideoInfo>, calls: nat)
    ensures var r := Collect(entries, day, endDay, minSubscribers, skip, api, acc, calls);
      && |acc| <= |r.videos| && r.videos[..|acc|] == acc
      && forall k :: |acc| <= k < |r.videos| ==>
           exists d :: day <= d <= endDay && var w := DayWindow(d);
             api.search(w.0, w.1).Ok? && r.videos[k] in api.search(w.0, w.1).value
    decreases endDay - day
  {
    if day <= endDay {
      var d := CollectDay(entries, day, minSubscribers, skip, api, acc, calls);
      DayKeepsSearchResults(entries, day, minSubscribers, skip, api, acc, calls);
      if d.raised.None? {
        CollectAppends(d.entries, day + 1, endDay, minSubscribers, skip, api, d.kept, d.calls);
        var r := Collect(d.entries, day + 1, endDay, minSubscribers, skip, api, d.kept, d.calls);
        assert r.videos[..|acc|] == d.kept[..|acc|];
        forall k | |acc| <= k < |r.videos|
          ensures exists e :: day <= e <= endDay && var w := DayWindow(e);
                    api.search(w.0, w.1).Ok? && r.videos[k] in api.search(w.0, w.1).value
        {
          if k < |d.kept| {
            assert r.videos[k] == d.kept[k];
            var w := DayWindow(day);
            assert api.search(w.0, w.1).Ok? && r.videos[k] in api.search(w.0, w.1).value;
          }
        }
      }
    }
  }

  /** The `channel_ids` set of a day, built in order of first appearance. */
  method DistinctChannelIds(items: seq<VideoInfo>) returns (channelIds: seq<string>)
    ensures channelIds == ChannelIdsOf(items)
  {
    channelIds := [];
    for k := 0 to |items|
      invariant channelIds == ChannelIdsOf(items[..k])
    {
      assert items[..k + 1][..k] == items[..k];
      if items[k].channelId !in channelIds {
        channelIds := channelIds + [items[k].channelId];
      }
    }
    assert items[..|items|] == items;
  }

  /** The filter loop of `collect_videos` over one day's results, after
      `calls` requests, appending to `videos`; `stats` is what
      `get_subscriber_count` returned, which agrees with the cache on every
      channel of the day. `raised` is the error that escaped an activity
      check, if any, and `made` the number of requests made by then. */
  method FilterResults(cache: ChannelCache, items: seq<VideoInfo>, stats: map<string, int>, minSubscribers: int,
                       skip: bool, activity: (string, nat) -> Result<nat, ApiError>, videos: seq<VideoInfo>, calls: nat)
    returns (kept: seq<VideoInfo>, made: nat, raised: Option<ApiError>)
    requires forall k :: 0 <= k < |items| ==>
      items[k].channelId in stats && stats[items[k].channelId] == CountOr0(cache.entries, items[k].channelId)
    modifies cache
    ensures DayOutcome(kept, cache.entries, made, raised)
         == FilterDay(old(cache.entries), DayOutcome(videos, old(cache.entries), calls, None), items,
                      minSubscribers, skip, activity)
  {
    ghost var counts := cache.entries;
    ghost var start := DayOutcome(videos, counts, calls, None);
    kept, made, raised := videos, calls, None;
    for k := 0 to |items|
      invariant FilterDay(counts, DayOutcome(kept, cache.entries, made, None), items[k..], minSubscribers, skip, activity)
             == FilterDay(counts, start, items, minSubscribers, skip, activity)
    {
      assert items[k..][1..] == items[k + 1..];
      var cid := items[k].channelId;
      var subscribers := if cid in stats then stats[cid] else 0;
      if subscribers < minSubscribers {
        continue;
      }
      var active;
      active, made := cache.IsChannelActive(cid, skip, activity, made);
      if active.Err? {
        raised := Some(active.error);
        StoppedStays(counts, DayOutcome(kept, cache.entries, made, raised), items[k + 1..], minSubscribers, skip, activity);
        return;
      }
      if active.value {
        kept := kept + [items[k]];
      }
    }
  }

  /** `collect_videos` over days `startDay..endDay` (day numbers), with the
      cache loaded from its file and no request made yet. `crashed` says
      that an exception other than `HttpError` escaped. */
  method CollectVideos(startDay: int, endDay: int, minSubscribers: int, skip: bool, cache: ChannelCache, api: Api)
    returns (videos: seq<VideoInfo>, crashed: bool)
    modifies cache
    ensures Collection(videos, cache.entries, crashed)
         == Collect(old(cache.entries), startDay, endDay, minSubscribers, skip, api, [], 0)
  {
    videos, crashed := [], false;
    var calls := 0;
    var current := startDay;
    while current <= endDay
      invariant Collect(cache.entries, current, endDay, minSubscribers, skip, api, videos, calls)
             == Collect(old(cache.entries), startDay, endDay, minSubscribers, skip, api, [], 0)
      invariant !crashed
      decreases endDay - current
    {
      var next := current + 1;
      var window := DayWindow(current);
      var search := api.search(window.0, window.1);
      if search.Err? {
        crashed := search.error.OtherError?;
        return;
      }
      var items := search.value;
      var channelIds := DistinctChannelIds(items);
      var stats;
      stats, calls := cache.GetSubscriberCount(channelIds, api.statistics, calls);
      if stats.Err? {
        crashed := stats.error.OtherError?;
        return;
      }
      var raised;
      videos, calls, raised := FilterResults(cache, items, stats.value, minSubscribers, skip, api.activity, videos, calls);
      if raised.Some? {
        crashed := raised.value.OtherError?;
        return;
      }
      current := next;
    }
  }

  /** `main`: the dates, already parsed into day numbers, must be in order;
      otherwise the program exits with status 1. The cache starts as the
      contents of the cache file; `saved` is the cache as it is last saved.
      `None` when no video file is written: the dates are out of order, or
      an exception other than `HttpError` escaped the collection. */
  method CollectAllVideos(startDay: int, endDay: int, minSubscribers: int, skip: bool,
                          cached: map<string, ChannelEntry>, api: Api)
    returns (r: Option<seq<VideoInfo>>, saved: map<string, ChannelEntry>)
    ensures var c := Collect(cached, startDay, endDay, minSubscribers, skip, api, [], 0);
      && (r.None? <==> startDay > endDay || c.crashed)
      && (startDay > endDay ==> saved == cached)
      && (startDay <= endDay ==> saved == c.entries)
      && (r.Some? ==> r.value == c.videos)
  {
    if startDay > endDay {
      return None, cached;
    }
    var cache := new ChannelCache(cached);
    var videos, crashed := CollectVideos(startDay, endDay, minSubscribers, skip, cache, api);
    if crashed {
      return None, cache.entries;
    }
    return Some(videos), cache.entries;
  }
}
