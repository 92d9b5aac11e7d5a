# YouTube face search — a Dafny model

This project models the three scripts of the YouTube face search tool and proves properties of the model.

- **collect_all_videos.py** collects the videos published day by day in a date range. It keeps only channels with enough subscribers that were active recently. Subscriber counts and activity verdicts are backed by a channel cache.
- **filter_videos.py** filters the collected videos by detected language and by minimum duration. Durations are backed by a video cache.
- **youtube_face_search.py** checks each remaining video against a gallery of known faces. It looks at the thumbnail, the channel avatar, and a sample of sharp, well-contrasted frames of the downloaded video.

Module layout:

| file | module | what it holds |
|---|---|---|
| common.dfy | `Common` | `Option`, `Result`, the API error (an `HttpError` or any other exception) and the quota test, an order-preserving `Filter`, batches of 50 |
| media.dfy | `Media`, `Quality` | faces, pictures, frames, videos as the detectors see them; the blur and contrast gates |
| gallery.dfy | `GalleryLoader` | `load_known_faces`, with `str.lower().endswith` and `os.path.splitext` |
| faces.dfy | `FaceMatching` | `detect_known_faces_in_image`, `detect_known_faces_in_frames` |
| frames.dfy | `FrameSelector` | `extract_frames`: sample points, the sharpest frame of each window, the gates |
| acquisition.dfy | `Acquisition` | the retry loops of `download_video` and `get_video_and_channel_info` |
| orchestrator.dfy | `Orchestrator` | `process_video` and the processing loop of `main` |
| collector.dfy | `ChannelCollector` | the `ChannelCache` class, `get_subscriber_count`, `is_channel_active`, `collect_videos`, the date check of `main` |
| videofilter.dfy | `VideoFilter` | the `VideoCache` class, `get_video_durations`, `is_language_content`, `duration_to_seconds`, `filter_videos` |

Everything the scripts obtain from outside becomes a parameter. Each such parameter is a function from request to outcome. Requests the scripts may repeat are told apart by their number: the API replies to each retry attempt, the statistics and activity requests by how many requests the collector has made before, the duration requests by their batch number.
- the YouTube Data API replies,
- yt_dlp download attempts,
- `download_image`,
- OpenCV frame reads and their frame rate,
- the face detector and `compare_faces`,
- langdetect,
- the ISO 8601 duration parser.

The two caches are classes whose `entries` field the methods update in place. Each such method is specified by a pure function of the old cache: `FetchCounts`, `ActivityCheck`, `FetchDurations`. The lemmas about those functions carry the properties.

## Model

| member | source | states |
|---|---|---|
| GalleryLoader.LoadKnownFaces | youtube_face_search.py:41-62 | a missing directory gives two empty lists; a file with an image extension that cannot be loaded makes the exception escape (`None`); otherwise the lists are parallel, one entry per image file (lower-cased name ending in .jpg/.jpeg/.png) with at least one face, in listing order, holding its first encoding and its name without extension |
| GalleryLoader.LoadFiles | youtube_face_search.py:49-61 | the loop over the listing fails exactly when some file with an image extension cannot be loaded, and otherwise builds exactly the gallery of the whole listing |
| GalleryLoader.KnownStep | youtube_face_search.py:49-58 | one more file of the listing appends its first encoding and its name without extension when it contributes, and nothing otherwise |
| GalleryLoader.LoadableStep | youtube_face_search.py:50-53 | one more file keeps the listing loadable exactly when it has no image extension or can be loaded |
| GalleryLoader.ContributingFiles | youtube_face_search.py:49-57 | a file enters the gallery exactly when its lower-cased name has an image extension and a face was found in it |
| GalleryLoader.LowerAt | youtube_face_search.py:50 | lower-casing maps each character on its own |
| GalleryLoader.SplitExtParts | youtube_face_search.py:57 | `splitext` loses nothing (root + extension is the name) and an extension is a dot followed by no other dot |
| GalleryLoader.ImageExtensionAtLastDot | youtube_face_search.py:50-57 | in a name that passes the extension test, the last dot is the one that starts that extension |
| GalleryLoader.ImageRootStripsExtension | youtube_face_search.py:50-57 | for an image file whose stem is not all dots, the registered name is the file name minus exactly its image extension, and that extension lower-cased is one of the three accepted |
| GalleryLoader.HiddenImageKeepsWholeName | youtube_face_search.py:50-57 | a name whose stem is all dots (`.png`, `..jpeg`) passes the extension test but `splitext` gives it no extension, so it is registered under its whole name |
| Quality.GateBoundaries | youtube_face_search.py:64-74 | a frame passes both gates iff sharpness ≥ 150 and contrast ≥ 30; both comparisons are strict, so a frame exactly at a threshold passes |
| FaceMatching.IndexOfTrue | youtube_face_search.py:96-97 | `True in matches` holds iff an index is returned, and `matches.index(True)` is the lowest index holding True |
| FaceMatching.ReportedIndexIsFirstMatch | youtube_face_search.py:95-98 | the reported gallery index exists iff some gallery entry matches the probe, and it is the first matching entry |
| FaceMatching.ScanEncodings | youtube_face_search.py:93-99 | the encoding loop finds nothing iff no encoding matches; otherwise it returns the first matching encoding with its first matching gallery entry |
| FaceMatching.ScanFaces | youtube_face_search.py:89-99 | boxes narrower or shorter than 40 are skipped; the scan finds nothing iff no admissible face has a matching encoding, and otherwise stops at the first one in (face, encoding) order |
| FaceMatching.DetectKnownFacesInImage | youtube_face_search.py:76-104 | no image, an undecodable image or no faces gives False; True only with an admissible face matching the gallery; with a name for every encoding, True iff such a face exists |
| FaceMatching.ScanFrames | youtube_face_search.py:170-193 | frames failing a gate are skipped; the scan stops at the first gated frame that raises or holds a matching face, and every earlier frame neither matches nor raises |
| FaceMatching.DetectKnownFacesInFrames | youtube_face_search.py:166-198 | True only if some frame passes both gates and holds a matching face; with a name for every encoding, True iff such a frame comes before any frame whose analysis raises |
| FrameSelector.Trunc | youtube_face_search.py:112-113 | `int()` of a non-negative float is the largest integer not above it |
| FrameSelector.PositiveStepNeedsPositiveRate | youtube_face_search.py:111-113 | a sampling step of at least one frame implies a positive frame rate, so the timestamp division is defined |
| FrameSelector.BestInWindow | youtube_face_search.py:134-144 | the window scan's choice lies in the window and is a readable frame |
| FrameSelector.BestInWindowIsFirstSharpest | youtube_face_search.py:128-144 | the scan finds nothing iff no frame of the window is readable; otherwise it picks the sharpest readable frame, the earliest among equals (strict `>`) |
| FrameSelector.ScanWindow | youtube_face_search.py:128-144 | the loop with `best_laplacian = -1` returns the window's first sharpest readable frame and its position; a readable sample point always yields a frame |
| FrameSelector.Chosen | youtube_face_search.py:146-155 | a sample point contributes at most one position, and only one whose frame is readable and passes both gates |
| FrameSelector.ChosenIsGatedSharpest | youtube_face_search.py:128-155 | at a readable sample point, the contribution is empty iff the window's sharpest frame fails a gate, and otherwise is that frame's position, within the window and at least as sharp as every readable frame in it |
| FrameSelector.SamplePointsProgression | youtube_face_search.py:116-157 | the sample points start at 0 (or the given start), advance by the step, all lie below the frame count, and one more step would not |
| FrameSelector.ScannedIsReadablePrefix | youtube_face_search.py:119-125 | the visited sample points are a prefix of all sample points, each readable; when the loop stops early the next point's read failed |
| FrameSelector.ContributionsAtMostOneEach | youtube_face_search.py:146-155 | no more frames are kept than sample points visited |
| FrameSelector.SelectionPerSamplePoint | youtube_face_search.py:119-157 | the kept positions are the visited sample points' contributions concatenated in order |
| FrameSelector.SelectedFramesPassGates | youtube_face_search.py:146-155 | every kept position holds a readable frame that passes both gates |
| FrameSelector.SampleFrames | youtube_face_search.py:116-157 | the sampling loop keeps exactly the specified positions and the frames read there, in order; with a zero rate the first gate division raises and nothing is kept |
| FrameSelector.ExtractedFramesAreGated | youtube_face_search.py:106-164 | every extracted position passes both gates, and there are no more of them than readable sample points |
| FrameSelector.ExtractedFrames | youtube_face_search.py:106-164 | the extracted frames are the frames at the extracted positions, each passing both gates |
| FrameSelector.ExtractFrames | youtube_face_search.py:106-164 | returns the extracted frames and positions, and as timestamp the position over the frame rate for each |
| Acquisition.VideoPath | youtube_face_search.py:206 | `os.path.join(temp_dir, video_id + ".mp4")` is never empty |
| Acquisition.DownloadStop | youtube_face_search.py:203-222 | the download loop stops at the first attempt that does not raise, if any is within the retries |
| Acquisition.DownloadedPathCases | youtube_face_search.py:200-224 | the path is returned iff some attempt completes with the file present after only raising attempts; a completed attempt with no file returns None without retrying |
| Acquisition.DownloadVideo | youtube_face_search.py:200-224 | returns that path, after stop + 1 attempts, or all `retries` when every attempt raises |
| Acquisition.InfoStop | youtube_face_search.py:229-245 | the info loop stops at the first attempt in which neither call raises `HttpError` |
| Acquisition.FetchedInfoCases | youtube_face_search.py:226-247 | with every attempt failing with `HttpError`, both URLs are empty; an exception escapes (an empty reply's `IndexError`, or a failure that is not an `HttpError`) iff the first attempt without `HttpError` raises it; a non-empty thumbnail URL is the `high` URL of a reply's first item |
| Acquisition.GetVideoAndChannelInfo | youtube_face_search.py:226-247 | the retry loop returns exactly the outcome of the first attempt without `HttpError` (two URLs or an escaping exception), or two empty URLs |
| Orchestrator.ChecksAreIndependent | youtube_face_search.py:249-294 | unless an exception escapes, each verdict is its own check (thumbnail URL, avatar URL, downloaded frames); otherwise all three are False |
| Orchestrator.PositiveVerdictsHaveWitnesses | youtube_face_search.py:255-272 | a True verdict always rests on a match: a fetched, decodable image with a matching admissible face, or a downloaded video with a gated matching frame |
| Orchestrator.ProcessVideo | youtube_face_search.py:249-294 | a record lacking `video_id` or `channel_id` escapes; otherwise the result is the specified record (the video frame loop need end only when both URLs were fetched and the video downloaded) |
| Orchestrator.ProcessRecords | youtube_face_search.py:313-316 | one result per record in input order, or nothing as soon as a record lacks a key; only records the loop reaches need their frame loop to end |
| Orchestrator.RunSearch | youtube_face_search.py:296-326 | nothing is written when a gallery image cannot be loaded, the gallery is empty, the file is unreadable or a record lacks a key; otherwise one result per record, in order, each the specified record |
| ChannelCollector.UncachedIds | collect_all_videos.py:46 | an id is fetched iff it was requested and the cache holds no subscriber count for it |
| ChannelCollector.StoreCountsEffect | collect_all_videos.py:58-63 | storing a reply never changes an activity verdict, leaves channels it does not name untouched, and gives every channel it names the count of the last item naming it, or 0 when that item has none |
| ChannelCollector.StoreCountsKeepsCount | collect_all_videos.py:58-63 | a stored count is never removed by later items |
| ChannelCollector.FetchCountsKeeps | collect_all_videos.py:49-69 | the batch loop keeps every cached count and every activity verdict; it makes one request per batch until a quota error or a non-`HttpError` exception, which alone end it and are reported |
| ChannelCollector.ChannelCache.GetSubscriberCount | collect_all_videos.py:43-77 | the cache becomes the batch loop's result (another `HttpError` loses its batch only); an error that propagates is returned; otherwise every requested id gets the cached count or 0 |
| ChannelCollector.ActivityCheckIsStable | collect_all_videos.py:79-105 | an activity check keeps every count, changes no other channel's entry, never changes a cached verdict, and makes at most one request |
| ChannelCollector.ActivityCheckRemembers | collect_all_videos.py:79-105 | a True answer is cached; a settled verdict is answered again, at any later request, without a request; an uncached False comes from a failed request whose error does not propagate; an error answer propagates and leaves the cache unchanged |
| ChannelCollector.ChannelCache.IsChannelActive | collect_all_videos.py:79-105 | with the skip flag, True and no change; a cached verdict without a search; otherwise whether the search returned an item, cached; a quota error or a non-`HttpError` exception propagates; any other error False, nothing cached |
| ChannelCollector.ChannelIdsOf | collect_all_videos.py:130-136 | the day's channel ids are exactly those of its results, each once |
| ChannelCollector.DistinctChannelIds | collect_all_videos.py:130-136 | the set update loop builds those ids in order of first appearance |
| ChannelCollector.StoppedStays | collect_all_videos.py:143-167 | once an error has escaped the filter loop, the remaining results change nothing |
| ChannelCollector.FilterDaySnoc | collect_all_videos.py:143-158 | the loop over one more result is one more iteration after the loop |
| ChannelCollector.FilterDayPerCall | collect_all_videos.py:143-158 | each result is decided at its own turn, against the cache and request count the earlier results left: skipped below the threshold or after an error, otherwise appended exactly when its activity check answers True, the loop stopping exactly when the check raises |
| ChannelCollector.FilterDayWithoutSearch | collect_all_videos.py:143-158 | when every channel above the threshold has a settled verdict, the filter makes no request, changes no cache entry, and keeps in input order exactly the videos with enough subscribers and a True verdict |
| ChannelCollector.FilterDayCacheEffect | collect_all_videos.py:143-149 | the filter never changes a count or a cached verdict, never touches the entry of a channel below the threshold (the activity check is not consulted for it), and makes at most one request per result |
| ChannelCollector.FilterDayKept | collect_all_videos.py:143-158 | the filter only appends, and only results with enough subscribers whose verdict ends cached as True unless the check is skipped |
| ChannelCollector.FilterResults | collect_all_videos.py:143-158 | the filter loop appends the specified videos, leaves the specified cache and request count, and reports the error that escaped an activity check |
| ChannelCollector.DayWindow | collect_all_videos.py:113-118 | a day's window runs from midnight to one second before the next midnight |
| ChannelCollector.DayKeepsSearchResults | collect_all_videos.py:120-165 | a day only appends, and only that day's search results whose channel has enough subscribers |
| ChannelCollector.CollectAppends | collect_all_videos.py:107-169 | collecting never drops or reorders earlier videos, and every video added is a search result of a day in the range |
| ChannelCollector.CollectVideos | collect_all_videos.py:107-169 | the day loop returns the specified videos and cache: days from start to end inclusive, stopping at the first error of a day, and reporting whether it was an exception other than `HttpError` |
| ChannelCollector.CollectAllVideos | collect_all_videos.py:193-205 | a start date after the end date exits with nothing collected; an exception other than `HttpError` leaves nothing written; otherwise the result of the collection from the loaded cache |
| VideoFilter.UncachedVideoIds | filter_videos.py:62 | an id is fetched iff it was requested and the cache holds no duration for it |
| VideoFilter.StoreDurationsEffect | filter_videos.py:74-79 | storing a reply changes no other key of any entry, leaves videos it does not name untouched, and gives every video it names the duration of the last item naming it, or `PT0S` when that item has none |
| VideoFilter.StoreDurationsKeepsDuration | filter_videos.py:74-79 | a stored duration is never removed by later items |
| VideoFilter.FailedBatchEndsFetch | filter_videos.py:82-87 | a failed batch is the last one requested: the batches after it, whatever their replies, do not matter |
| VideoFilter.FetchDurationsKeeps | filter_videos.py:65-87 | the batch loop keeps every cached duration and every other key of every entry |
| VideoFilter.VideoCache.GetVideoDurations | filter_videos.py:59-95 | the cache becomes the batch loop's result; a quota error or a non-`HttpError` exception propagates; otherwise every requested id gets the cached duration or `PT0S` |
| VideoFilter.IsLanguageContent | filter_videos.py:45-57 | no target accepts; otherwise True iff the title is detected in the target language, or the description is and the title's detection did not raise |
| VideoFilter.TitleDetectionFailureRejects | filter_videos.py:49-57 | a detection failure on a non-empty title rejects the video even when the description is in the target language |
| VideoFilter.UnparsableDurationExcluded | filter_videos.py:99-104 | an unparsable duration fails every positive minimum |
| VideoFilter.FilterLoop | filter_videos.py:126-144 | the loop keeps, in input order, exactly the videos passing the language check (when a target is set) and the duration minimum |
| VideoFilter.FilterVideos | filter_videos.py:106-144 | nothing is written when the input cannot be read, or a quota error or another exception escapes the fetch; otherwise the order-preserving sublist of passing videos, and the cache as the fetch left it |
| VideoFilter.KeptVideosPass | filter_videos.py:126-144 | a video is in the output iff it is in the input and passes both checks |
| Common.FilterMembership | collect_all_videos.py:46 | an element survives the filter iff it is in the input and satisfies the predicate |
| Common.FilterConcat | filter_videos.py:126-144 | filtering commutes with concatenation, so survivors keep their input order |
| Common.BatchesPartition | collect_all_videos.py:49-50 | the batches are consecutive non-empty slices of at most 50, all but the last of exactly 50, whose concatenation is the input |

## Left out

- I/O is not modelled: logging, `time.sleep` pauses, JSON reads and writes of the caches and outputs, `tempfile.mkdtemp` and `shutil.rmtree`. A file that cannot be read is a `None` input. The saved caches are the returned or final cache maps.
- The API key that youtube_face_search.py builds its client with is not modelled.
- Search pagination (`list_next`) is collapsed: one reply per day window, which fails if any page fails. Each window is searched once, so the search oracle is keyed by the window alone.
- Exceptions that are not an `HttpError` (a timeout, a reset connection) are one `OtherError`: they escape every `except HttpError` clause, and in the collector and the filter they leave nothing written.
- langdetect runs without a fixed seed, so it may answer differently for the same text; the model's `detect` is a function of the text. Likewise `download_image` is a function of the URL, which each video requests at most once for its thumbnail and once for its avatar.
- `channel_ids` is a Python set whose iteration order is unspecified. The model fixes first-appearance order. That order only decides which ids share a batch.
- `datetime.now()` is not modelled: the six-month activity window and the future end-date warning are folded into the activity oracle or dropped. Dates are day numbers and windows are seconds; `strptime` errors are not modelled.
- OpenCV and face_recognition internals are outside the model. Sharpness and contrast are non-negative integer scores standing for the Laplacian variance and the grey-level deviation. `compare_faces` at tolerance 0.45 is a `matches` predicate. An image or frame whose analysis raises is `Undecodable`; a gallery image `load_image_file` cannot load is `Unreadable`.
- A `KeyError` or `ValueError` from a reply with missing fields is not modelled (`item['statistics']`, `item['snippet']`, `int(subscriberCount)`, video records without `title`). Replies are well-formed records. A missing `subscriberCount`, `duration` or `high` URL is modelled, with the source's default.
- Cache entries of the channel cache hold exactly the two keys the collector writes. Video cache entries are arbitrary key–value maps.
- FrameSelector.ExtractFrames requires `Terminates`: a frame rate between 0 and 0.4 with a readable first frame gives a sampling step of 0, and the source loop never ends. That case is excluded, not modelled.
- FrameSelector.ExtractFrames: the sampling step `int(fps * 2.5)` and the window `int(fps * 0.25)` are computed in exact arithmetic on a real frame rate, not in floating point; where the rounded product crosses an integer the source's value differs by one (for the rate 3.5999999999999996 the source's step is 9, the exact product's 8).
- FrameSelector.ExtractFrames computes the timestamps after the sampling loop rather than inside it, as the exact quotient of the position by the frame rate rather than Python's floating-point `best_frame_pos / fps`; they only reach the return value and the log.
- FrameSelector.ScanWindow and FrameSelector.ChosenIsGatedSharpest rely on reads being deterministic: the model's video holds one outcome per position, so the read of a sample point and the later read of the same position inside its window return the same frame.
- Orchestrator.ProcessVideo requires `Finishes`, because the frame loop of `extract_frames` may never end (see above): only when both URLs were fetched and the video was downloaded must its frame loop end. ProcessRecords asks it only of the records the loop reaches, and RunSearch only of those, and only once the gallery has loaded with at least one face and the input file has been read.
- Orchestrator.RunSearch does not model an exception raised while writing the results file (it is caught and nothing is written); its `None` covers only the cases listed in its contract.
- The `timestamps` argument of `detect_known_faces_in_frames` only feeds the log and is left out.
