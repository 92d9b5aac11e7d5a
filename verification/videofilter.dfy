/** Filtering collected videos by language and duration (filter_videos.py):
    durations are fetched in batches of 50 through a video cache updated in
    place, and the videos that pass both checks are kept in input order. */
module VideoFilter {
  import opened Common

  /** A cache entry, a JSON object: key to value. */
  type VideoEntry = map<string, string>

  const DurationKey := "duration"

  /** The ISO 8601 duration written when none is known. */
  const ZeroDuration := "PT0S"

  /** `video_cache.get(vid, {})`. */
  function EntryOf(cache: map<string, VideoEntry>, vid: string): VideoEntry {
    if vid in cache then cache[vid] else map[]
  }

  /** The cache holds a duration for `vid`. */
  predicate HasDuration(cache: map<string, VideoEntry>, vid: string) {
    vid in cache && DurationKey in cache[vid]
  }

  /** The cached duration, or `PT0S` when there is none. */
  function DurationOrZero(cache: map<string, VideoEntry>, vid: string): string {
    if HasDuration(cache, vid) then cache[vid][DurationKey] else ZeroDuration
  }

  /** An item of a `videos().list(part="contentDetails")` reply: the video id
      and `contentDetails.duration`, `None` when absent. */
  datatype DurationItem = DurationItem(id: string, duration: Option<string>)

  /** A record of the input file; the filter reads these three keys and
      writes the record back unchanged. */
  datatype Candidate = Candidate(videoId: string, title: string, description: string)

  /** The ids that still need a duration, in input order. */
  function UncachedVideos(videoIds: seq<string>, cache: map<string, VideoEntry>): seq<string> {
    Filter(videoIds, (vid: string) => !HasDuration(cache, vid))
  }

  lemma UncachedVideoIds(videoIds: seq<string>, cache: map<string, VideoEntry>, vid: string)
    ensures vid in UncachedVideos(videoIds, cache) <==> vid in videoIds && !HasDuration(cache, vid)
  {
    FilterMembership(videoIds, (vid: string) => !HasDuration(cache, vid), vid);
  }

  /** Storing the durations of one reply, item by item: each sets the
      entry's `duration` (`PT0S` when the reply has none). */
  function StoreDurations(cache: map<string, VideoEntry>, items: seq<DurationItem>): map<string, VideoEntry>
    decreases |items|
  {
    if items == [] then cache
    else
      var vid := items[0].id;
      StoreDurations(cache[vid := EntryOf(cache, vid)[DurationKey := items[0].duration.GetOr(ZeroDuration)]], items[1..])
  }

  /** The `k`-th item is the last one naming `vid`. */
  predicate LastNaming(items: seq<DurationItem>, k: int, vid: string) {
    0 <= k < |items| && items[k].id == vid && forall m :: k < m < |items| ==> items[m].id != vid
  }

  /** Storing durations changes no other key of any entry, leaves the entry
      of a video no item names as it was, and gives every named video the
      duration of the last item naming it (`PT0S` when that item has
      none). */
  lemma {:induction false} StoreDurationsEffect(cache: map<string, VideoEntry>, items: seq<DurationItem>, vid: string)
    ensures var after := StoreDurations(cache, items);
      && (vid in after <==> vid in cache || exists k :: 0 <= k < |items| && items[k].id == vid)
      && (forall key :: key != DurationKey ==>
            (key in EntryOf(after, vid) <==> key in EntryOf(cache, vid))
            && (key in EntryOf(cache, vid) ==> EntryOf(after, vid)[key] == EntryOf(cache, vid)[key]))
      && ((forall k :: 0 <= k < |items| ==> items[k].id != vid) ==> EntryOf(after, vid) == EntryOf(cache, vid))
      && (forall k :: LastNaming(items, k, vid) ==>
            HasDuration(after, vid) && after[vid][DurationKey] == items[k].duration.GetOr(ZeroDuration))
    decreases |items|
  {
    if items != [] {
      var v := items[0].id;
      var next := cache[v := EntryOf(cache, v)[DurationKey := items[0].duration.GetOr(ZeroDuration)]];
      StoreDurationsEffect(next, items[1..], vid);
      if vid != v {
        assert EntryOf(next, vid) == EntryOf(cache, vid);
      }
      forall k | 1 <= k < |items| ensures items[k] == items[1..][k - 1] {
      }
      forall k | LastNaming(items, k, vid)
        ensures HasDuration(StoreDurations(cache, items), vid)
        ensures StoreDurations(cache, items)[vid][DurationKey] == items[k].duration.GetOr(ZeroDuration)
      {
        if k > 0 {
          assert LastNaming(items[1..], k - 1, vid);
        }
      }
    }
  }

  /** A duration once stored is never removed by storing more. */
  lemma {:induction false} StoreDurationsKeepsDuration(cache: map<string, VideoEntry>, items: seq<DurationItem>, vid: string)
    requires HasDuration(cache, vid)
    ensures HasDuration(StoreDurations(cache, items), vid)
    decreases |items|
  {
    if items != [] {
      var v := items[0].id;
      StoreDurationsKeepsDuration(cache[v := EntryOf(cache, v)[DurationKey := items[0].duration.GetOr(ZeroDuration)]], items[1..], vid);
    }
  }

  /** The cache after the batch loop, and the error that escaped it: a
      quota error, which is re-raised, or an exception other than
      `HttpError`, which no clause catches. */
  datatype Fetched = Fetched(cache: map<string, VideoEntry>, raised: Option<ApiError>)

  /** The batch loop of `get_video_durations`, from batch number `n` on
      (`details` is given the batch and its number): a reply stores its
      durations; an error that propagates is reported; any other error ends
      the loop, so the remaining batches are never requested. */
  function FetchDurations(cache: map<string, VideoEntry>, batches: seq<seq<string>>,
                          details: (seq<string>, nat) -> Result<seq<DurationItem>, ApiError>, n: nat): Fetched
    decreases |batches|
  {
    if batches == [] then Fetched(cache, None)
    else match details(batches[0], n)
      case Err(e) => Fetched(cache, if Propagates(e) then Some(e) else None)
      case Ok(items) => FetchDurations(StoreDurations(cache, items), batches[1..], details, n + 1)
  }

  /** A failed batch is the last one requested: nothing after it is stored. */
  lemma FailedBatchEndsFetch(cache: map<string, VideoEntry>, batches: seq<seq<string>>,
                             details: (seq<string>, nat) -> Result<seq<DurationItem>, ApiError>, n: nat, b: nat)
    requires b < |batches|
    requires forall k :: 0 <= k < b ==> details(batches[k], n + k).Ok?
    requires details(batches[b], n + b).Err?
    ensures FetchDurations(cache, batches, details, n) == FetchDurations(cache, batches[..b + 1], details, n)
    decreases b
  {
    if b > 0 {
      match details(batches[0], n)
      case Ok(items) =>
        assert batches[..b + 1][1..] == batches[1..][..b];
        forall k | 0 <= k < b - 1 ensures details(batches[1..][k], n + 1 + k).Ok? {
          assert batches[1..][k] == batches[k + 1];
        }
        FailedBatchEndsFetch(StoreDurations(cache, items), batches[1..], details, n + 1, b - 1);
    }
  }

  /** Fetching durations keeps every duration already cached and every other
      key of every entry. */
  lemma {:induction false} FetchDurationsKeeps(cache: map<string, VideoEntry>, batches: seq<seq<string>>,
                                               details: (seq<string>, nat) -> Result<seq<DurationItem>, ApiError>,
                                               n: nat, vid: string)
    ensures var after := FetchDurations(cache, batches, details, n).cache;
      && (HasDuration(cache, vid) ==> HasDuration(after, vid))
      && (forall key :: key != DurationKey ==>
            (key in EntryOf(after, vid) <==> key in EntryOf(cache, vid))
            && (key in EntryOf(cache, vid) ==> EntryOf(after, vid)[key] == EntryOf(cache, vid)[key]))
    decreases |batches|
  {
    if batches != [] {
      match details(batches[0], n)
      case Err(e) =>
      case Ok(items) =>
        StoreDurationsEffect(cache, items, vid);
        if HasDuration(cache, vid) {
          StoreDurationsKeepsDuration(cache, items, vid);
        }
        FetchDurationsKeeps(StoreDurations(cache, items), batches[1..], details, n + 1, vid);
    }
  }

  /** The video cache `get_video_durations` updates. */
  class VideoCache {
    var entries: map<string, VideoEntry>

    constructor(initial: map<string, VideoEntry>)
      ensures entries == initial
    {
      entries := initial;
    }

    /** `get_video_durations`. The durations of the uncached ids are fetched
        in batches of 50 and stored in the cache; then every requested id
        gets the cached duration, or `PT0S`. A quota error is re-raised and
        an exception other than `HttpError` escapes (`Err`), leaving the
        durations stored so far. */
    method GetVideoDurations(videoIds: seq<string>, details: (seq<string>, nat) -> Result<seq<DurationItem>, ApiError>)
      returns (r: Result<map<string, string>, ApiError>)
      modifies this
      ensures var f := FetchDurations(old(entries), Batches(UncachedVideos(videoIds, old(entries))), details, 0);
        && entries == f.cache
        && (r.Err? <==> f.raised.Some?)
        && (r.Err? ==> r.error == f.raised.value)
      ensures r.Ok? ==> forall vid :: vid in videoIds ==> vid in r.value
      ensures r.Ok? ==> forall vid :: vid in r.value ==> r.value[vid] == DurationOrZero(entries, vid)
    {
      var durations: map<string, string> := map[];
      var uncachedIds := UncachedVideos(videoIds, entries);
      ghost var all := Batches(uncachedIds);
      var i, n := 0, 0;
      while i < |uncachedIds|
        invariant FetchDurations(entries, Batches(Suffix(uncachedIds, i)), details, n)
               == FetchDurations(old(entries), all, details, 0)
        invariant forall vid :: vid in durations ==> HasDuration(entries, vid) && entries[vid][DurationKey] == durations[vid]
        decreases |uncachedIds| - i
      {
        var batch := uncachedIds[i..Min(i + BatchSize, |uncachedIds|)];
        BatchAt(uncachedIds, i);
        var reply := details(batch, n);
        if reply.Err? {
          if Propagates(reply.error) {
            return Err(reply.error);
          }
          break;
        }
        var items := reply.value;
        ghost var before := entries;
        for k := 0 to |items|
          invariant StoreDurations(entries, items[k..]) == StoreDurations(before, items)
          invariant forall vid :: vid in durations ==> HasDuration(entries, vid) && entries[vid][DurationKey] == durations[vid]
        {
          var vid := items[k].id;
          var duration := items[k].duration.GetOr(ZeroDuration);
          entries := entries[vid := EntryOf(entries, vid)[DurationKey := duration]];
          durations := durations[vid := duration];
          assert items[k..][1..] == items[k + 1..];
        }
        i, n := i + BatchSize, n + 1;
      }
      for j := 0 to |videoIds|
        invariant forall k :: 0 <= k < j ==> videoIds[k] in durations
        invariant forall vid :: vid in durations ==> durations[vid] == DurationOrZero(entries, vid)
      {
        var vid := videoIds[j];
        if HasDuration(entries, vid) {
          durations := durations[vid := entries[vid][DurationKey]];
        } else if vid !in durations {
          durations := durations[vid := ZeroDuration];
        }
      }
      return Ok(durations);
    }
  }

  /** `is_language_content`. `detect` is langdetect's `detect`, `None` when
      it raises; no target (absent or empty) accepts everything. */
  function IsLanguageContent(title: string, description: string, target: Option<string>,
                             detect: string -> Option<string>): (r: bool)
    ensures target.None? || target.value == "" ==> r
    ensures target.Some? && target.value != "" ==>
      (r <==> (title != "" && detect(title) == Some(target.value))
              || (description != "" && detect(description) == Some(target.value)
                  && (title == "" || detect(title).Some?)))
  {
    if target.None? || target.value == "" then true
    else if title != "" && detect(title).None? then false
    else if title != "" && detect(title).value == target.value then true
    else if description != "" && detect(description).None? then false
    else description != "" && detect(description).value == target.value
  }

  /** A failure to detect the title's language rejects the video even when
      the description is in the target language. */
  lemma TitleDetectionFailureRejects(title: string, description: string, target: string,
                                     detect: string -> Option<string>)
    requires target != "" && title != "" && detect(title).None?
    ensures !IsLanguageContent(title, description, Some(target), detect)
  {
  }

  /** `duration_to_seconds`. `parse` is isodate's parser followed by
      `int(total_seconds())`, `None` when it raises. */
  function DurationToSeconds(duration: string, parse: string -> Option<int>): int {
    match parse(duration)
    case None => 0
    case Some(seconds) => seconds
  }

  /** An unparsable duration counts as 0 seconds, so it fails any positive
      minimum. */
  lemma UnparsableDurationExcluded(duration: string, parse: string -> Option<int>, minDuration: int)
    requires parse(duration).None? && minDuration > 0
    ensures DurationToSeconds(duration, parse) < minDuration
  {
  }

  /** The check the filter loop applies to one video, given the durations
      as the cache holds them after the fetch. */
  predicate Passes(v: Candidate, cache: map<string, VideoEntry>, minDuration: int, target: Option<string>,
                   detect: string -> Option<string>, parse: string -> Option<int>) {
    && (target.None? || target.value == "" || IsLanguageContent(v.title, v.description, target, detect))
    && DurationToSeconds(DurationOrZero(cache, v.videoId), parse) >= minDuration
  }

  /** The output of `filter_videos` for these videos and this cache. */
  function Kept(videos: seq<Candidate>, cache: map<string, VideoEntry>, minDuration: int, target: Option<string>,
                detect: string -> Option<string>, parse: string -> Option<int>): seq<Candidate> {
    Filter(videos, (v: Candidate) => Passes(v, cache, minDuration, target, detect, parse))
  }

  /** The ids the filter asks durations for. */
  function VideoIds(videos: seq<Candidate>): (r: seq<string>)
    ensures |r| == |videos| && forall i :: 0 <= i < |videos| ==> r[i] == videos[i].videoId
  {
    seq(|videos|, i requires 0 <= i < |videos| => videos[i].videoId)
  }

  /** The cache `filter_videos` leaves, and whether the fetch raised. */
  function FetchFor(videos: seq<Candidate>, cached: map<string, VideoEntry>,
                    details: (seq<string>, nat) -> Result<seq<DurationItem>, ApiError>): Fetched {
    FetchDurations(cached, Batches(UncachedVideos(VideoIds(videos), cached)), details, 0)
  }

  /** The filter loop of `filter_videos`. */
  method FilterLoop(videos: seq<Candidate>, durations: map<string, string>, cache: map<string, VideoEntry>,
                    minDuration: int, target: Option<string>, detect: string -> Option<string>,
                    parse: string -> Option<int>) returns (filtered: seq<Candidate>)
    requires forall i :: 0 <= i < |videos| ==>
      videos[i].videoId in durations && durations[videos[i].videoId] == DurationOrZero(cache, videos[i].videoId)
    ensures filtered == Kept(videos, cache, minDuration, target, detect, parse)
  {
    ghost var p := (v: Candidate) => Passes(v, cache, minDuration, target, detect, parse);
    filtered := [];
    for i := 0 to |videos|
      invariant filtered == Filter(videos[..i], p)
    {
      var video := videos[i];
      assert videos[..i + 1] == videos[..i] + [video];
      FilterConcat(videos[..i], [video], p);
      assert Filter([video], p) == if p(video) then [video] else [];
      if target.Some? && target.value != "" && !IsLanguageContent(video.title, video.description, target, detect) {
        continue;
      }
      var duration := if video.videoId in durations then durations[video.videoId] else ZeroDuration;
      var seconds := DurationToSeconds(duration, parse);
      if seconds < minDuration {
        continue;
      }
      filtered := filtered + [video];
    }
    assert videos[..|videos|] == videos;
  }

  /** `filter_videos`. `videos` is the parsed input file (`None` when it
      cannot be read) and `cached` the contents of the cache file. Returns
      the videos written to the output file, `None` when nothing is written
      (an unreadable input, or a quota error or an exception other than
      `HttpError` out of the duration fetch),
      and the cache as it is last saved. */
  method FilterVideos(videos: Option<seq<Candidate>>, minDuration: int, target: Option<string>,
                      cached: map<string, VideoEntry>, details: (seq<string>, nat) -> Result<seq<DurationItem>, ApiError>,
                      detect: string -> Option<string>, parse: string -> Option<int>)
    returns (out: Option<seq<Candidate>>, saved: map<string, VideoEntry>)
    ensures videos.None? ==> out.None? && saved == cached
    ensures videos.Some? ==> saved == FetchFor(videos.value, cached, details).cache
    ensures out.Some? <==> videos.Some? && FetchFor(videos.value, cached, details).raised.None?
    ensures out.Some? ==> out.value == Kept(videos.value, saved, minDuration, target, detect, parse)
  {
    var cache := new VideoCache(cached);
    if videos.None? {
      return None, cached;
    }
    var ids := VideoIds(videos.value);
    var durations := cache.GetVideoDurations(ids, details);
    saved := cache.entries;
    if durations.Err? {
      return None, saved;
    }
    var filtered := FilterLoop(videos.value, durations.value, saved, minDuration, target, detect, parse);
    return Some(filtered), saved;
  }

  /** The output keeps exactly the input videos that pass both checks, in
      input order. */
  lemma {:induction false} KeptVideosPass(videos: seq<Candidate>, cache: map<string, VideoEntry>, minDuration: int,
                                          target: Option<string>, detect: string -> Option<string>,
                                          parse: string -> Option<int>, v: Candidate)
    ensures v in Kept(videos, cache, minDuration, target, detect, parse) <==>
      v in videos && Passes(v, cache, minDuration, target, detect, parse)
  {
    FilterMembership(videos, (v: Candidate) => Passes(v, cache, minDuration, target, detect, parse), v);
  }
}
