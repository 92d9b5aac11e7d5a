/** What the face-search pipeline sees of images and videos once OpenCV and
    face_recognition are replaced by the values they compute. */
module Media {
  import opened Common

  /** A face embedding: the numeric vector face_recognition computes for one
      face, kept abstract (integers stand in for its floats). */
  type Embedding = seq<int>

  /** A face location as face_recognition reports it: (top, right, bottom, left). */
  datatype Box = Box(top: int, right: int, bottom: int, left: int)

  /** One detected face: its box and the encodings `face_encodings` returns for
      that single box (normally one). */
  datatype Face = Face(box: Box, encodings: seq<Embedding>)

  /** An image or video frame as the face detector sees it: the faces it
      locates, in detector order, or `Undecodable` when the conversion or the
      detector raises (malformed image data). */
  datatype Picture = Decoded(faces: seq<Face>) | Undecodable

  /** A decoded video frame: the variance of its Laplacian (sharpness), the
      standard deviation of its grey levels (contrast), both non-negative
      scores, and its content. */
  datatype Frame = Frame(sharpness: nat, contrast: nat, picture: Picture)

  /** A video file as `cv2.VideoCapture` exposes it: one entry per position
      below the reported frame count, `None` where reading that position
      fails. Reads are deterministic: the same position yields the same frame. */
  datatype Video = Video(frames: seq<Option<Frame>>)
}

/** The two frame-quality gates (`is_frame_blurry`, `has_low_contrast`). */
module Quality {
  import opened Media

  /** Default threshold on the Laplacian variance. */
  const BlurThreshold := 150

  /** Default threshold on the grey-level standard deviation. */
  const ContrastThreshold := 30

  predicate IsFrameBlurry(f: Frame, threshold: int) {
    f.sharpness < threshold
  }

  predicate HasLowContrast(f: Frame, threshold: int) {
    f.contrast < threshold
  }

  /** A frame that neither gate rejects at the default thresholds. */
  predicate PassesGates(f: Frame) {
    !IsFrameBlurry(f, BlurThreshold) && !HasLowContrast(f, ContrastThreshold)
  }

  /** Both comparisons are strict: a frame exactly at a threshold passes
      that gate, and one just below fails it. */
  lemma GateBoundaries(f: Frame)
    ensures PassesGates(f) <==> f.sharpness >= 150 && f.contrast >= 30
    ensures f.sharpness == 150 ==> !IsFrameBlurry(f, BlurThreshold)
    ensures f.sharpness == 149 ==> IsFrameBlurry(f, BlurThreshold)
    ensures f.contrast == 30 ==> !HasLowContrast(f, ContrastThreshold)
    ensures f.contrast == 29 ==> HasLowContrast(f, ContrastThreshold)
  {
  }
}
