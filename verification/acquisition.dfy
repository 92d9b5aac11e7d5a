/** Fetching what is checked for one video (`download_video`,
    `get_video_and_channel_info`): two bounded retry loops over outcomes
    supplied by yt_dlp and the YouTube Data API. The five-second pause between
    attempts is left out. */
module Acquisition {
  import opened Common

  /** Attempts made by default. */
  const DefaultRetries: nat := 3

  /** How one `yt_dlp` download attempt ends: it raises, or it completes and
      the output file is then present or absent. */
  datatype DownloadAttempt = Raised | Completed(fileExists: bool)

  /** `os.path.join(temp_dir, f"{video_id}.mp4")`: an absolute second part
      replaces the first; otherwise a separator is inserted unless the first
      part is empty or already ends with one. */
  function VideoPath(tempDir: string, videoId: string): (r: string)
    ensures |r| > 0
  {
    var name := videoId + ".mp4";
    if name[0] == '/' then name
    else if tempDir == [] || tempDir[|tempDir| - 1] == '/' then tempDir + name
    else tempDir + "/" + name
  }

  /** The attempt, from `i` on, at which the download loop stops: the first
      that does not raise. */
  function DownloadStop(attempt: nat -> DownloadAttempt, i: nat, retries: nat): (r: Option<nat>)
    ensures r.Some? ==> i <= r.value < retries && attempt(r.value).Completed? && forall j :: i <= j < r.value ==> attempt(j).Raised?
    ensures r.None? ==> forall j :: i <= j < retries ==> attempt(j).Raised?
    decreases retries - i
  {
    if i >= retries then None
    else if attempt(i).Completed? then Some(i)
    else DownloadStop(attempt, i + 1, retries)
  }

  /** What `download_video` returns: the path when the first attempt that
      completes leaves the file behind, `None` when it does not or when every
      attempt raises. */
  function DownloadedPath(videoId: string, tempDir: string, retries: nat, attempt: nat -> DownloadAttempt): Option<string> {
    match DownloadStop(attempt, 0, retries)
    case None => None
    case Some(i) => if attempt(i).fileExists then Some(VideoPath(tempDir, videoId)) else None
  }

  /** The download succeeds exactly when some attempt below `retries`
      completes with the file present and every earlier attempt raised; a
      completed attempt whose file is missing ends the loop without a retry. */
  lemma DownloadedPathCases(videoId: string, tempDir: string, retries: nat, attempt: nat -> DownloadAttempt)
    ensures DownloadedPath(videoId, tempDir, retries, attempt).Some? <==>
      exists i :: 0 <= i < retries && attempt(i) == Completed(true) && forall j :: 0 <= j < i ==> attempt(j).Raised?
    ensures DownloadedPath(videoId, tempDir, retries, attempt).Some? ==>
      DownloadedPath(videoId, tempDir, retries, attempt).value == VideoPath(tempDir, videoId)
    ensures forall i :: 0 <= i < retries && attempt(i) == Completed(false) && (forall j :: 0 <= j < i ==> attempt(j).Raised?) ==>
      DownloadedPath(videoId, tempDir, retries, attempt).None?
  {

  }

  /** `download_video`. Returns the path (or `None`) and the number of
      attempts made. */
  method DownloadVideo(videoId: string, tempDir: string, retries: nat, attempt: nat -> DownloadAttempt)
    returns (path: Option<string>, tries: nat)
    ensures path == DownloadedPath(videoId, tempDir, retries, attempt)
    ensures tries <= retries
    ensures DownloadStop(attempt, 0, retries).Some? ==> tries == DownloadStop(attempt, 0, retries).value + 1
    ensures DownloadStop(attempt, 0, retries).None? ==> tries == retries
  {
    tries := 0;
    for a := 0 to retries
      invariant tries == a
      invariant DownloadStop(attempt, a, retries) == DownloadStop(attempt, 0, retries)
    {
      tries := a + 1;
      match attempt(a)
      case Completed(fileExists) =>
        var outputPath := VideoPath(tempDir, videoId);
        if fileExists {
          return Some(outputPath), tries;
        }
        return None, tries;
      case Raised =>
    }
    path := None;
  }

  /** An item of a `videos().list` or `channels().list` reply, reduced to
      `item['snippet']['thumbnails']['high']['url']`, `None` when `high` or
      its `url` is absent. */
  datatype Item = Item(highUrl: Option<string>)

  /** `.get('high', {}).get('url', '')` on an item's thumbnails. */
  function HighUrl(item: Item): string {
    item.highUrl.GetOr("")
  }

  /** The reply to one `list(...).execute()` call: the exception it raises,
      or the listed items. */
  datatype ApiReply = Failure(error: ApiError) | Listed(items: seq<Item>)

  /** What `get_video_and_channel_info` hands back: the two URLs, or an
      exception that is not an `HttpError` and so escapes the retry loop: an
      `IndexError` from `items[0]` on an empty reply, or a non-HTTP failure of
      a call. */
  datatype InfoOutcome = Urls(thumbnail: string, avatar: string) | Escaped

  /** One attempt: an `HttpError` from either call asks for another attempt,
      any other exception escapes; the channel is only queried after the
      video reply was read. */
  function InfoAttempt(videoReply: ApiReply, channelReply: ApiReply): Option<InfoOutcome> {
    match videoReply
    case Failure(e) => if e.HttpError? then None else Some(Escaped)
    case Listed(videos) =>
      if videos == [] then Some(Escaped)
      else match channelReply
        case Failure(e) => if e.HttpError? then None else Some(Escaped)
        case Listed(channels) =>
          if channels == [] then Some(Escaped)
          else Some(Urls(HighUrl(videos[0]), HighUrl(channels[0])))
  }

  /** The attempt, from `i` on, at which the info loop stops: the first whose
      two calls do not raise `HttpError`. */
  function InfoStop(videoReply: nat -> ApiReply, channelReply: nat -> ApiReply, i: nat, retries: nat): (r: Option<nat>)
    ensures r.Some? ==>
      && i <= r.value < retries && InfoAttempt(videoReply(r.value), channelReply(r.value)).Some?
      && forall j :: i <= j < r.value ==> InfoAttempt(videoReply(j), channelReply(j)).None?
    ensures r.None? ==> forall j :: i <= j < retries ==> InfoAttempt(videoReply(j), channelReply(j)).None?
    decreases retries - i
  {
    if i >= retries then None
    else if InfoAttempt(videoReply(i), channelReply(i)).Some? then Some(i)
    else InfoStop(videoReply, channelReply, i + 1, retries)
  }

  /** The result of the loop: that attempt's outcome, or two empty URLs when
      every attempt failed with `HttpError`. */
  function FetchedInfo(retries: nat, videoReply: nat -> ApiReply, channelReply: nat -> ApiReply): InfoOutcome {
    match InfoStop(videoReply, channelReply, 0, retries)
    case None => Urls("", "")
    case Some(i) => InfoAttempt(videoReply(i), channelReply(i)).value
  }

  /** The outcome is decided by the first attempt without an `HttpError`;
      with none, both URLs are empty. A non-empty URL is always the `high`
      thumbnail URL of the first item of that attempt's reply. */
  lemma FetchedInfoCases(retries: nat, videoReply: nat -> ApiReply, channelReply: nat -> ApiReply)
    ensures (forall i :: 0 <= i < retries ==>
               || (videoReply(i).Failure? && videoReply(i).error.HttpError?)
               || (videoReply(i).Listed? && videoReply(i).items != [] && channelReply(i).Failure? && channelReply(i).error.HttpError?)) ==>
      FetchedInfo(retries, videoReply, channelReply) == Urls("", "")
    ensures FetchedInfo(retries, videoReply, channelReply).Escaped? <==>
      exists i :: && 0 <= i < retries
                  && InfoAttempt(videoReply(i), channelReply(i)) == Some(Escaped)
                  && forall j :: 0 <= j < i ==> InfoAttempt(videoReply(j), channelReply(j)).None?
    ensures var r := FetchedInfo(retries, videoReply, channelReply);
      r.Urls? && r.thumbnail != "" ==>
        exists i :: 0 <= i < retries && videoReply(i).Listed? && videoReply(i).items != [] &&
                    r.thumbnail == HighUrl(videoReply(i).items[0])
  {

  }

  /** `get_video_and_channel_info`: up to `retries` attempts, each listing the
      video, then the channel. */
  method GetVideoAndChannelInfo(retries: nat, videoReply: nat -> ApiReply, channelReply: nat -> ApiReply)
    returns (r: InfoOutcome)
    ensures r == FetchedInfo(retries, videoReply, channelReply)
  {
    for a := 0 to retries
      invariant InfoStop(videoReply, channelReply, a, retries) == InfoStop(videoReply, channelReply, 0, retries)
    {
      match videoReply(a)
      case Failure(e) =>
        if e.OtherError? {
          return Escaped;
        }
      case Listed(videos) =>
        if videos == [] {
          return Escaped;
        }
        var thumbnailUrl := HighUrl(videos[0]);
        match channelReply(a)
        case Failure(e) =>
          if e.OtherError? {
            return Escaped;
          }
        case Listed(channels) =>
          if channels == [] {
            return Escaped;
          }
          var avatarUrl := HighUrl(channels[0]);
          return Urls(thumbnailUrl, avatarUrl);
    }
    r := Urls("", "");
  }
}
