/** Matching detected faces against the known-face gallery
    (`detect_known_faces_in_image`, `detect_known_faces_in_frames`).
    `matches(known, probe)` stands for face_recognition's distance test at
    tolerance 0.45. */
module FaceMatching {
  import opened Common
  import opened Media
  import opened Quality

  /** Smallest width and height, in pixels, of a face box worth encoding. */
  const MinFaceSize := 40

  /** A box that the size floor does not skip. */
  predicate IsAdmissible(b: Box) {
    !(b.right - b.left < MinFaceSize || b.bottom - b.top < MinFaceSize)
  }

  /** `compare_faces(known, probe)`: one verdict per gallery entry, in gallery order. */
  function CompareFaces(known: seq<Embedding>, probe: Embedding, matches: (Embedding, Embedding) -> bool): (r: seq<bool>)
    ensures |r| == |known|
    ensures forall k :: 0 <= k < |known| ==> r[k] == matches(known[k], probe)
  {
    seq(|known|, k requires 0 <= k < |known| => matches(known[k], probe))
  }

  /** `matches.index(True)` guarded by `True in matches`. */
  function IndexOfTrue(bs: seq<bool>): (r: Option<nat>)
    ensures r.Some? <==> true in bs
    ensures r.Some? ==> r.value < |bs| && bs[r.value] && forall j :: 0 <= j < r.value ==> !bs[j]
    decreases |bs|
  {
    if bs == [] then None
    else if bs[0] then Some(0)
    else match IndexOfTrue(bs[1..])
      case None => None
      case Some(k) => Some(k + 1)
  }

  /** Some gallery entry matches the probe. */
  predicate AnyMatch(known: seq<Embedding>, probe: Embedding, matches: (Embedding, Embedding) -> bool) {
    exists k :: 0 <= k < |known| && matches(known[k], probe)
  }

  /** `k` is the lowest gallery index that matches the probe. */
  predicate FirstMatchingEntry(known: seq<Embedding>, probe: Embedding, k: nat, matches: (Embedding, Embedding) -> bool) {
    k < |known| && matches(known[k], probe) && forall k' :: 0 <= k' < k ==> !matches(known[k'], probe)
  }

  /** Encoding `j` of face `i` belongs to an admissible face and matches some
      gallery entry. */
  predicate Matching(faces: seq<Face>, i: int, j: int, known: seq<Embedding>, matches: (Embedding, Embedding) -> bool) {
    && 0 <= i < |faces|
    && IsAdmissible(faces[i].box)
    && 0 <= j < |faces[i].encodings|
    && AnyMatch(known, faces[i].encodings[j], matches)
  }

  /** The gallery index a probe reports, as the source computes it. */
  lemma ReportedIndexIsFirstMatch(known: seq<Embedding>, probe: Embedding, matches: (Embedding, Embedding) -> bool)
    ensures IndexOfTrue(CompareFaces(known, probe, matches)).Some? <==> AnyMatch(known, probe, matches)
    ensures IndexOfTrue(CompareFaces(known, probe, matches)).Some? ==>
      FirstMatchingEntry(known, probe, IndexOfTrue(CompareFaces(known, probe, matches)).value, matches)
  {
    var bs := CompareFaces(known, probe, matches);
    if AnyMatch(known, probe, matches) {
      var k :| 0 <= k < |known| && matches(known[k], probe);
      assert bs[k];
    }
  }

  /** Which face, which of its encodings and which gallery entry produced the
      first match. */
  datatype Hit = Hit(face: nat, encoding: nat, known: nat)

  /** The inner loop over the encodings of one face, from index `j` on:
      the first encoding that matches and the gallery index it reports. */
  function ScanEncodings(encs: seq<Embedding>, j: nat, known: seq<Embedding>, matches: (Embedding, Embedding) -> bool): (r: Option<(nat, nat)>)
    ensures r.None? <==> forall j' :: j <= j' < |encs| ==> !AnyMatch(known, encs[j'], matches)
    ensures r.Some? ==>
      && j <= r.value.0 < |encs|
      && AnyMatch(known, encs[r.value.0], matches)
      && FirstMatchingEntry(known, encs[r.value.0], r.value.1, matches)
      && forall j' :: j <= j' < r.value.0 ==> !AnyMatch(known, encs[j'], matches)
    decreases |encs| - j
  {
    if j >= |encs| then None
    else
      ReportedIndexIsFirstMatch(known, encs[j], matches);
      match IndexOfTrue(CompareFaces(known, encs[j], matches))
      case Some(k) => Some((j, k))
      case None => ScanEncodings(encs, j + 1, known, matches)
  }

  /** The loop over detected faces from index `i` on: too-small boxes are
      skipped and the first encoding that matches ends the scan. */
  function ScanFaces(faces: seq<Face>, i: nat, known: seq<Embedding>, matches: (Embedding, Embedding) -> bool): (r: Option<Hit>)
    ensures r.None? <==> forall i', j' :: i <= i' ==> !Matching(faces, i', j', known, matches)
    ensures r.Some? ==>
      && i <= r.value.face
      && Matching(faces, r.value.face, r.value.encoding, known, matches)
      && FirstMatchingEntry(known, faces[r.value.face].encodings[r.value.encoding], r.value.known, matches)
      && forall i', j' :: i <= i' && Matching(faces, i', j', known, matches) ==>
           r.value.face < i' || (r.value.face == i' && r.value.encoding <= j')
    decreases |faces| - i
  {
    if i >= |faces| then None
    else if !IsAdmissible(faces[i].box) then ScanFaces(faces, i + 1, known, matches)
    else match ScanEncodings(faces[i].encodings, 0, known, matches)
      case Some((j, k)) =>
        assert Matching(faces, i, j, known, matches);
        Some(Hit(i, j, k))
      case None => ScanFaces(faces, i + 1, known, matches)
  }

  /** `detect_known_faces_in_image`. A match is only reported when the name
      lookup `known_face_names[match_index]` succeeds; otherwise the
      IndexError is caught and the answer is False. */
  function DetectKnownFacesInImage(image: Option<Picture>, known: seq<Embedding>, names: seq<string>,
                                   matches: (Embedding, Embedding) -> bool): (r: bool)
    ensures image.None? ==> !r
    ensures image.Some? && image.value.Undecodable? ==> !r
    ensures image.Some? && image.value.Decoded? && image.value.faces == [] ==> !r
    ensures r ==> image.Some? && image.value.Decoded? &&
                  exists i, j :: Matching(image.value.faces, i, j, known, matches)
    ensures |names| >= |known| ==>
      (r <==> image.Some? && image.value.Decoded? &&
              exists i, j :: Matching(image.value.faces, i, j, known, matches))
  {
    match image
    case None => false
    case Some(Undecodable) => false
    case Some(Decoded(faces)) =>
      if faces == [] then false
      else match ScanFaces(faces, 0, known, matches)
        case None => false
        case Some(h) => h.known < |names|
  }

  /** A frame that passes both gates, decodes, and holds a matching face. */
  ghost predicate FrameMatches(fr: Frame, known: seq<Embedding>, matches: (Embedding, Embedding) -> bool) {
    && PassesGates(fr)
    && fr.picture.Decoded?
    && exists i, j :: Matching(fr.picture.faces, i, j, known, matches)
  }

  /** A frame that passes both gates but whose analysis raises. */
  predicate FrameFails(fr: Frame) {
    PassesGates(fr) && fr.picture.Undecodable?
  }

  /** How the frame loop ends: on a match, on an exception, or after the last frame. */
  datatype FrameScan = Found(frame: nat, hit: Hit) | Failed(frame: nat) | NotFound

  /** The loop over frames from index `f` on: blurry and low-contrast frames
      are skipped again, an exception on a frame ends the whole scan, and the
      first matching face ends it with a match. */
  function ScanFrames(frames: seq<Frame>, f: nat, known: seq<Embedding>, matches: (Embedding, Embedding) -> bool): (r: FrameScan)
    ensures r.Found? ==>
      && f <= r.frame < |frames|
      && FrameMatches(frames[r.frame], known, matches)
      && ScanFaces(frames[r.frame].picture.faces, 0, known, matches) == Some(r.hit)
      && forall g :: f <= g < r.frame ==> !FrameMatches(frames[g], known, matches) && !FrameFails(frames[g])
    ensures r.Failed? ==>
      && f <= r.frame < |frames|
      && FrameFails(frames[r.frame])
      && forall g :: f <= g < r.frame ==> !FrameMatches(frames[g], known, matches) && !FrameFails(frames[g])
    ensures r.NotFound? ==>
      forall g :: f <= g < |frames| ==> !FrameMatches(frames[g], known, matches) && !FrameFails(frames[g])
    decreases |frames| - f
  {
    if f >= |frames| then NotFound
    else if IsFrameBlurry(frames[f], BlurThreshold) then ScanFrames(frames, f + 1, known, matches)
    else if HasLowContrast(frames[f], ContrastThreshold) then ScanFrames(frames, f + 1, known, matches)
    else match frames[f].picture
      case Undecodable => Failed(f)
      case Decoded(faces) =>
        if faces == [] then ScanFrames(frames, f + 1, known, matches)
        else match ScanFaces(faces, 0, known, matches)
          case Some(h) => Found(f, h)
          case None => ScanFrames(frames, f + 1, known, matches)
  }

  /** `detect_known_faces_in_frames`. The timestamps only feed the log and are
      left out; the frames are scanned in order. */
  function DetectKnownFacesInFrames(frames: seq<Frame>, known: seq<Embedding>, names: seq<string>,
                                    matches: (Embedding, Embedding) -> bool): (r: bool)
    ensures r ==> exists g :: 0 <= g < |frames| && FrameMatches(frames[g], known, matches)
    ensures |names| >= |known| ==>
      (r <==> exists g :: 0 <= g < |frames| && FrameMatches(frames[g], known, matches) &&
                          forall g' :: 0 <= g' < g ==> !FrameFails(frames[g']))
  {
    match ScanFrames(frames, 0, known, matches)
    case Found(_, h) => h.known < |names|
    case _ => false
  }
}
