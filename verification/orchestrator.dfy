/** The per-video pipeline (`process_video`) and the processing loop of
    `main`: fetch the two URLs, check the thumbnail, the channel avatar and
    the video frames against the gallery, and collect one result per input
    record. */
module Orchestrator {
  import opened Common
  import opened Media
  import opened FaceMatching
  import opened GalleryLoader
  import opened FrameSelector
  import opened Acquisition

  /** A record of the input JSON file, with its two keys possibly missing. */
  datatype VideoRecord = VideoRecord(videoId: Option<string>, channelId: Option<string>)

  /** A record of the results file. */
  datatype MatchResult = MatchResult(videoId: string, inThumbnail: bool, inAvatar: bool, inVideo: bool)

  /** What the outside world answers while one video is processed: the API
      replies to each attempt, the image behind each URL (`download_image`,
      `None` when the request or the decoding fails), each download attempt,
      the downloaded file as OpenCV reads it with its frame rate, and whether
      deleting the file raises. */
  datatype World = World(
    videoReply: nat -> ApiReply,
    channelReply: nat -> ApiReply,
    fetchImage: string -> Option<Picture>,
    download: nat -> DownloadAttempt,
    video: Video,
    fps: Rate,
    removeFails: bool)

  /** The downloaded video, if any, is one whose frame loop ends. */
  predicate DownloadFinishes(videoId: string, tempDir: string, w: World) {
    DownloadedPath(videoId, tempDir, DefaultRetries, w.download).Some? ==> Terminates(w.video, w.fps)
  }

  /** The video is downloaded only once both URLs are fetched without an
      escaping exception; only then must its frame loop end. */
  predicate Finishes(videoId: string, tempDir: string, w: World) {
    FetchedInfo(DefaultRetries, w.videoReply, w.channelReply).Urls? ==> DownloadFinishes(videoId, tempDir, w)
  }

  /** The record written when an exception escapes the checks. */
  function AllFalse(videoId: string): MatchResult {
    MatchResult(videoId, false, false, false)
  }

  /** The thumbnail or avatar check: skipped for an empty URL. */
  function ImageCheck(url: string, w: World, known: seq<Embedding>, names: seq<string>,
                      matches: (Embedding, Embedding) -> bool): bool {
    url != "" && DetectKnownFacesInImage(w.fetchImage(url), known, names, matches)
  }

  /** The video check: `Some(false)` when nothing was downloaded, `None` when
      deleting the downloaded file raises. */
  function VideoCheck(videoId: string, tempDir: string, w: World, known: seq<Embedding>, names: seq<string>,
                      matches: (Embedding, Embedding) -> bool): Option<bool>
    requires DownloadFinishes(videoId, tempDir, w)
  {
    match DownloadedPath(videoId, tempDir, DefaultRetries, w.download)
    case None => Some(false)
    case Some(_) =>
      if w.removeFails then None
      else Some(DetectKnownFacesInFrames(ExtractedFrames(w.video, w.fps), known, names, matches))
  }

  /** The record `process_video` returns for a record with both keys. */
  function Processed(videoId: string, tempDir: string, known: seq<Embedding>, names: seq<string>,
                     matches: (Embedding, Embedding) -> bool, w: World): MatchResult
    requires Finishes(videoId, tempDir, w)
  {
    match FetchedInfo(DefaultRetries, w.videoReply, w.channelReply)
    case Escaped => AllFalse(videoId)
    case Urls(thumbnail, avatar) =>
      match VideoCheck(videoId, tempDir, w, known, names, matches)
      case None => AllFalse(videoId)
      case Some(inVideo) =>
        MatchResult(videoId, ImageCheck(thumbnail, w, known, names, matches), ImageCheck(avatar, w, known, names, matches), inVideo)
  }

  /** The record keeps the input's id. Each verdict depends on its own inputs
      only: unless an exception escapes, the thumbnail verdict is the check of
      the thumbnail URL, the avatar verdict the check of the avatar URL, and
      the video verdict the check of the downloaded frames. When an exception
      escapes, every verdict is false. */
  lemma ChecksAreIndependent(videoId: string, tempDir: string, known: seq<Embedding>, names: seq<string>,
                             matches: (Embedding, Embedding) -> bool, w: World)
    requires Finishes(videoId, tempDir, w)
    ensures var r := Processed(videoId, tempDir, known, names, matches, w);
      var info := FetchedInfo(DefaultRetries, w.videoReply, w.channelReply);
      && r.videoId == videoId
      && (info.Escaped? ==> !r.inThumbnail && !r.inAvatar && !r.inVideo)
      && (info.Urls? ==>
            var video := VideoCheck(videoId, tempDir, w, known, names, matches);
            && (video.None? ==> !r.inThumbnail && !r.inAvatar && !r.inVideo)
            && (video.Some? ==>
                  && r.inThumbnail == ImageCheck(info.thumbnail, w, known, names, matches)
                  && r.inAvatar == ImageCheck(info.avatar, w, known, names, matches)
                  && r.inVideo == video.value))
  {
  }

  /** A positive verdict always rests on a match: a decodable thumbnail or
      avatar with an admissible face that matches a gallery entry, or a kept
      video frame that passes both gates and holds such a face. */
  lemma PositiveVerdictsHaveWitnesses(videoId: string, tempDir: string, known: seq<Embedding>, names: seq<string>,
                                      matches: (Embedding, Embedding) -> bool, w: World)
    requires Finishes(videoId, tempDir, w)
    ensures var r := Processed(videoId, tempDir, known, names, matches, w);
      var info := FetchedInfo(DefaultRetries, w.videoReply, w.channelReply);
      && (r.inThumbnail ==>
            && info.Urls? && info.thumbnail != ""
            && var img := w.fetchImage(info.thumbnail);
               img.Some? && img.value.Decoded? && exists i, j :: Matching(img.value.faces, i, j, known, matches))
      && (r.inAvatar ==>
            && info.Urls? && info.avatar != ""
            && var img := w.fetchImage(info.avatar);
               img.Some? && img.value.Decoded? && exists i, j :: Matching(img.value.faces, i, j, known, matches))
      && (r.inVideo ==>
            && DownloadedPath(videoId, tempDir, DefaultRetries, w.download).Some?
            && var frames := ExtractedFrames(w.video, w.fps);
               exists g :: 0 <= g < |frames| && FrameMatches(frames[g], known, matches))
  {
  }

  /** `process_video`. Reading `video_id` or `channel_id` happens before the
      `try`, so a missing key escapes (`None`); any exception inside it turns
      into the all-false record. */
  method ProcessVideo(rec: VideoRecord, tempDir: string, known: seq<Embedding>, names: seq<string>,
                      matches: (Embedding, Embedding) -> bool, w: World) returns (r: Option<MatchResult>)
    requires WellFormed(rec) ==> Finishes(rec.videoId.value, tempDir, w)
    ensures r.None? <==> rec.videoId.None? || rec.channelId.None?
    ensures r.Some? ==> r.value == Processed(rec.videoId.value, tempDir, known, names, matches, w)
  {
    if rec.videoId.None? || rec.channelId.None? {
      return None;
    }
    var videoId := rec.videoId.value;
    var info := GetVideoAndChannelInfo(DefaultRetries, w.videoReply, w.channelReply);
    if info.Escaped? {
      return Some(AllFalse(videoId));
    }
    var inThumbnail := false;
    if info.thumbnail != "" {
      var thumbnail := w.fetchImage(info.thumbnail);
      inThumbnail := DetectKnownFacesInImage(thumbnail, known, names, matches);
    }
    var inAvatar := false;
    if info.avatar != "" {
      var avatar := w.fetchImage(info.avatar);
      inAvatar := DetectKnownFacesInImage(avatar, known, names, matches);
    }
    var inVideo := false;
    var videoPath, _ := DownloadVideo(videoId, tempDir, DefaultRetries, w.download);
    if videoPath.Some? {
      var frames, _, _ := ExtractFrames(w.video, w.fps);
      inVideo := DetectKnownFacesInFrames(frames, known, names, matches);
      if w.removeFails {
        return Some(AllFalse(videoId));
      }
    }
    return Some(MatchResult(videoId, inThumbnail, inAvatar, inVideo));
  }

  /** Both keys are present. */
  predicate WellFormed(rec: VideoRecord) {
    rec.videoId.Some? && rec.channelId.Some?
  }

  /** The records up to and including the `i`-th have both keys, so the loop
      of `main` reaches the `i`-th one and processes it. */
  predicate Reached(videos: seq<VideoRecord>, i: int) {
    0 <= i < |videos| && forall k :: 0 <= k <= i ==> WellFormed(videos[k])
  }

  /** The processing loop of `main`: one result per record, in order, or
      `None` as soon as a record lacks a key (the `KeyError` escapes the
      loop and nothing is written). */
  method ProcessRecords(videos: seq<VideoRecord>, tempDir: string, known: seq<Embedding>, names: seq<string>,
                        matches: (Embedding, Embedding) -> bool, env: nat -> World) returns (out: Option<seq<MatchResult>>)
    requires forall i :: 0 <= i < |videos| && Reached(videos, i) ==> Finishes(videos[i].videoId.value, tempDir, env(i))
    ensures out.Some? <==> forall i :: 0 <= i < |videos| ==> WellFormed(videos[i])
    ensures out.Some? ==>
      && |out.value| == |videos|
      && forall i :: 0 <= i < |videos| ==>
           Reached(videos, i) && out.value[i] == Processed(videos[i].videoId.value, tempDir, known, names, matches, env(i))
  {
    var results: seq<MatchResult> := [];
    for i := 0 to |videos|
      invariant |results| == i
      invariant forall k :: 0 <= k < i ==> WellFormed(videos[k])
      invariant forall k :: 0 <= k < i ==>
        results[k] == Processed(videos[k].videoId.value, tempDir, known, names, matches, env(k))
    {
      assert WellFormed(videos[i]) ==> Reached(videos, i);
      var result := ProcessVideo(videos[i], tempDir, known, names, matches, env(i));
      if result.None? {
        return None;
      }
      results := results + [result.value];
    }
    return Some(results);
  }

  /** `main` after the arguments are read. `dir` is the gallery directory,
      `records` the parsed JSON file (`None` when it cannot be read), and
      `env(i)` the world the `i`-th record meets. Returns the records written
      to the results file, or `None` when nothing is written: a gallery image
      that cannot be loaded, an empty gallery, an unreadable file, or a record
      without a key. */
  method RunSearch(dir: Option<seq<ImageFile>>, records: Option<seq<VideoRecord>>, tempDir: string,
                   matches: (Embedding, Embedding) -> bool, env: nat -> World) returns (out: Option<seq<MatchResult>>)
    requires (dir.Some? ==> Loadable(dir.value)) && KnownEncodings(dir) != [] && records.Some? ==>
      forall i :: 0 <= i < |records.value| && Reached(records.value, i) ==>
        Finishes(records.value[i].videoId.value, tempDir, env(i))
    ensures out.Some? <==>
      && (dir.Some? ==> Loadable(dir.value))
      && KnownEncodings(dir) != []
      && records.Some?
      && forall i :: 0 <= i < |records.value| ==> WellFormed(records.value[i])
    ensures out.Some? ==>
      && |out.value| == |records.value|
      && forall i :: 0 <= i < |out.value| ==>
           Reached(records.value, i) && out.value[i] == Processed(records.value[i].videoId.value, tempDir, KnownEncodings(dir), KnownNames(dir), matches, env(i))
  {
    var gallery := LoadKnownFaces(dir);
    if gallery.None? {
      return None;
    }
    var (known, names) := gallery.value;
    if known == [] {
      return None;
    }
    if records.None? {
      return None;
    }
    out := ProcessRecords(records.value, tempDir, known, names, matches, env);
  }
}
