/** Choosing representative frames of a video (`extract_frames`): a sample
    point every `step` frames, the sharpest readable frame of a small window
    around it, kept only when it passes the blur and contrast gates. */
module FrameSelector {
  import opened Common
  import opened Media
  import opened Quality

  /** A frame rate or a duration in seconds; OpenCV reports a non-negative rate
      (0 when it cannot tell). */
  type Rate = r: real | r >= 0.0

  /** Default sampling interval, in seconds. */
  const SampleInterval: Rate := 2.5

  /** Default half-width of the window searched around a sample point, in seconds. */
  const LookAround: Rate := 0.25

  /** Python's `int()` of a non-negative float: truncation toward zero. */
  function Trunc(x: Rate): (r: nat)
    ensures r as real <= x < r as real + 1.0
  {
    x.Floor
  }

  /** Frames between two sample points: `int(fps * interval)`. */
  function Step(fps: Rate, interval: Rate): nat {
    Trunc(fps * interval)
  }

  /** The sampling loop of `extract_frames` ends. With a step of at least one
      frame it advances; with a step of 0 it ends only when it never runs, when
      the first read fails, or when `fps` is 0 (the first division by `fps`
      raises). A step of 0 with `0 < fps` and a readable first frame loops
      forever. */
  predicate Terminates(v: Video, fps: Rate) {
    Step(fps, SampleInterval) >= 1 || fps == 0.0 || v.frames == [] || v.frames[0].None?
  }

  /** First position of the window around sample point `p`. */
  function WindowStart(p: nat, half: nat): nat {
    Max(0, p - half)
  }

  /** One past the last position of the window around `p`, clamped to the video. */
  function WindowEnd(p: nat, half: nat, total: nat): nat {
    Min(total, p + half + 1)
  }

  /** The window scan: the position that the loop over `[lo, hi)` leaves in
      `best_frame_pos`, among the readable frames, with the strict `>` test. */
  function BestInWindow(frames: seq<Option<Frame>>, lo: nat, hi: nat): (r: Option<nat>)
    requires lo <= hi <= |frames|
    ensures r.Some? ==> lo <= r.value < hi && frames[r.value].Some?
    decreases hi
  {
    if hi == lo then None
    else
      var prev := BestInWindow(frames, lo, hi - 1);
      if frames[hi - 1].Some? &&
         (prev.None? || frames[hi - 1].value.sharpness > frames[prev.value].value.sharpness)
      then Some(hi - 1)
      else prev
  }

  /** The window scan finds a frame exactly when the window holds a readable
      one, and that frame is the first of maximal sharpness. */
  lemma {:induction false} BestInWindowIsFirstSharpest(frames: seq<Option<Frame>>, lo: nat, hi: nat)
    requires lo <= hi <= |frames|
    ensures BestInWindow(frames, lo, hi).None? <==> forall q :: lo <= q < hi ==> frames[q].None?
    ensures BestInWindow(frames, lo, hi).Some? ==>
      var b := BestInWindow(frames, lo, hi).value;
      && (forall q :: lo <= q < hi && frames[q].Some? ==> frames[q].value.sharpness <= frames[b].value.sharpness)
      && (forall q :: lo <= q < b && frames[q].Some? ==> frames[q].value.sharpness < frames[b].value.sharpness)
    decreases hi
  {
    if hi > lo {
      BestInWindowIsFirstSharpest(frames, lo, hi - 1);
    }
  }

  /** Each position of `r` holds a readable frame that passes both gates. */
  predicate Gated(v: Video, r: seq<nat>) {
    forall k :: 0 <= k < |r| ==> r[k] < |v.frames| && v.frames[r[k]].Some? && PassesGates(v.frames[r[k]].value)
  }

  /** What sample point `p` contributes: the best frame of its window of
      half-width `half` when it passes both gates, nothing otherwise (and
      nothing for a point past the end of the video). */
  function Chosen(v: Video, half: nat, p: nat): (r: seq<nat>)
    ensures |r| <= 1 && Gated(v, r)
  {
    if p >= |v.frames| then []
    else
      var b := BestInWindow(v.frames, WindowStart(p, half), WindowEnd(p, half, |v.frames|));
      if b.Some? && PassesGates(v.frames[b.value].value) then [b.value] else []
  }

  /** The positions the loop emits from sample point `p` on, for a given step
      and window half-width. It stops at the first sample point whose own
      frame cannot be read. */
  function SelectFrom(v: Video, step: nat, half: nat, p: nat): seq<nat>
    requires step >= 1 || v.frames == []
    decreases |v.frames| - p
  {
    if p >= |v.frames| || v.frames[p].None? then []
    else Chosen(v, half, p) + SelectFrom(v, step, half, p + step)
  }

  /** The loop's view of `SelectFrom`: the positions emitted so far, `acc`,
      followed by what the sample points from `p` on emit. */
  function Accumulate(v: Video, step: nat, half: nat, p: nat, acc: seq<nat>): seq<nat>
    requires step >= 1
    decreases |v.frames| - p
  {
    if p >= |v.frames| || v.frames[p].None? then acc
    else Accumulate(v, step, half, p + step, acc + Chosen(v, half, p))
  }

  lemma {:induction false} AccumulateIsSelectFrom(v: Video, step: nat, half: nat, p: nat, acc: seq<nat>)
    requires step >= 1
    ensures Accumulate(v, step, half, p, acc) == acc + SelectFrom(v, step, half, p)
    decreases |v.frames| - p
  {
    if p < |v.frames| && v.frames[p].Some? {
      var c := Chosen(v, half, p);
      AccumulateIsSelectFrom(v, step, half, p + step, acc + c);
      AppendAssoc(acc, c, SelectFrom(v, step, half, p + step));
    }
  }

  /** Every emitted position holds a readable frame that passes both gates. */
  lemma {:induction false} SelectedFramesPassGates(v: Video, step: nat, half: nat, p: nat)
    requires step >= 1 || v.frames == []
    ensures Gated(v, SelectFrom(v, step, half, p))
    decreases |v.frames| - p
  {
    if p < |v.frames| && v.frames[p].Some? {
      SelectedFramesPassGates(v, step, half, p + step);
      var c, rest := Chosen(v, half, p), SelectFrom(v, step, half, p + step);
      forall k | 0 <= k < |c + rest|
        ensures (c + rest)[k] < |v.frames| && v.frames[(c + rest)[k]].Some? && PassesGates(v.frames[(c + rest)[k]].value)
      {
        if k >= |c| {
          assert (c + rest)[k] == rest[k - |c|];
        }
      }
    }
  }

  /** The sample points from `p` on: `p`, `p + step`, ... below `total`. */
  function SamplePoints(total: nat, step: nat, p: nat): seq<nat>
    requires step >= 1 || total == 0
    decreases total - p
  {
    if p >= total then [] else [p] + SamplePoints(total, step, p + step)
  }

  /** The sample points the loop actually visits: it stops at the first one
      whose frame cannot be read. */
  function Scanned(v: Video, step: nat, p: nat): seq<nat>
    requires step >= 1 || v.frames == []
    decreases |v.frames| - p
  {
    if p >= |v.frames| || v.frames[p].None? then []
    else [p] + Scanned(v, step, p + step)
  }

  /** The sample points from `p` form the progression `p`, `p + step`,
      `p + 2 * step`, ...: it starts at `p`, each point is `step` after the
      previous one, all lie below `total`, and one more step would not. */
  lemma {:induction false} SamplePointsProgression(total: nat, step: nat, p: nat)
    requires step >= 1
    ensures var sp := SamplePoints(total, step, p);
      && (sp == [] <==> p >= total)
      && (sp != [] ==> sp[0] == p && sp[|sp| - 1] + step >= total)
      && (forall k :: 0 <= k < |sp| ==> sp[k] < total)
      && (forall k :: 0 <= k < |sp| - 1 ==> sp[k + 1] == sp[k] + step)
    decreases total - p
  {
    if p < total {
      var sp := SamplePoints(total, step, p);
      var rest := SamplePoints(total, step, p + step);
      SamplePointsProgression(total, step, p + step);
      assert sp == [p] + rest;
      forall k | 0 <= k < |sp| - 1 ensures sp[k + 1] == sp[k] + step {
        if k > 0 {
          assert sp[k + 1] == rest[k] && sp[k] == rest[k - 1];
        }
      }
    }
  }

  /** The visited sample points are a prefix of all sample points, each with a
      readable frame; when the loop stops early, the next sample point's frame
      could not be read. */
  lemma {:induction false} ScannedIsReadablePrefix(v: Video, step: nat, p: nat)
    requires step >= 1 || v.frames == []
    ensures var s := Scanned(v, step, p);
      var all := SamplePoints(|v.frames|, step, p);
      && |s| <= |all| && s == all[..|s|]
      && (forall k :: 0 <= k < |s| ==> s[k] < |v.frames| && v.frames[s[k]].Some?)
      && (|s| < |all| ==> all[|s|] < |v.frames| && v.frames[all[|s|]].None?)
    decreases |v.frames| - p
  {
    if p < |v.frames| && v.frames[p].Some? {
      ScannedIsReadablePrefix(v, step, p + step);
    }
  }

  /** Concatenation of what each visited sample point contributes. */
  function Contributions(v: Video, half: nat, points: seq<nat>): seq<nat> {
    if points == [] then [] else Chosen(v, half, points[0]) + Contributions(v, half, points[1..])
  }

  /** Each sample point contributes at most one position. */
  lemma {:induction false} ContributionsAtMostOneEach(v: Video, half: nat, points: seq<nat>)
    ensures |Contributions(v, half, points)| <= |points|
  {
    if points != [] {
      ContributionsAtMostOneEach(v, half, points[1..]);
    }
  }

  /** The emitted positions are the contributions of the visited sample
      points, in order. */
  lemma {:induction false} SelectionPerSamplePoint(v: Video, step: nat, half: nat, p: nat)
    requires step >= 1 || v.frames == []
    ensures SelectFrom(v, step, half, p) == Contributions(v, half, Scanned(v, step, p))
    decreases |v.frames| - p
  {
    if p < |v.frames| && v.frames[p].Some? {
      var s := Scanned(v, step, p);
      SelectionPerSamplePoint(v, step, half, p + step);
      assert s[1..] == Scanned(v, step, p + step);
    }
  }

  /** At a visited sample point the window always holds a readable frame (the
      sample point itself), so a point contributes nothing only when its
      sharpest frame fails a gate; what it contributes lies in its window and
      is the first sharpest readable frame there. */
  lemma ChosenIsGatedSharpest(v: Video, half: nat, p: nat)
    requires p < |v.frames| && v.frames[p].Some?
    ensures var lo, hi := WindowStart(p, half), WindowEnd(p, half, |v.frames|);
      var b := BestInWindow(v.frames, lo, hi);
      && b.Some?
      && (Chosen(v, half, p) == [] <==> !PassesGates(v.frames[b.value].value))
      && (Chosen(v, half, p) != [] ==> Chosen(v, half, p) == [b.value] && p - half <= b.value <= p + half)
      && forall q :: lo <= q < hi && v.frames[q].Some? ==> v.frames[q].value.sharpness <= v.frames[b.value].value.sharpness
  {
    BestInWindowIsFirstSharpest(v.frames, WindowStart(p, half), WindowEnd(p, half, |v.frames|));
  }

  /** Frame rate over a position: the timestamp of a kept frame. */
  function Timestamp(position: nat, fps: Rate): real
    requires fps > 0.0
  {
    position as real / fps
  }

  /** The positions `extract_frames` keeps. A step of 0 only occurs, on a
      terminating run, when nothing is ever kept: the loop does not run, stops
      at once, or raises on the division by a zero `fps` and returns nothing. */
  function ExtractedPositions(v: Video, fps: Rate): seq<nat>
    requires Terminates(v, fps)
  {
    var step := Step(fps, SampleInterval);
    if step == 0 then [] else SelectFrom(v, step, Step(fps, LookAround), 0)
  }

  /** No frame `extract_frames` keeps is blurry or low in contrast, and at most
      one is kept per visited sample point. */
  lemma ExtractedFramesAreGated(v: Video, fps: Rate)
    requires Terminates(v, fps)
    ensures Gated(v, ExtractedPositions(v, fps))
    ensures var step := Step(fps, SampleInterval);
      step >= 1 ==> |ExtractedPositions(v, fps)| <= |Scanned(v, step, 0)|
  {
    var step := Step(fps, SampleInterval);
    if step >= 1 {
      SelectedFramesPassGates(v, step, Step(fps, LookAround), 0);
      SelectionPerSamplePoint(v, step, Step(fps, LookAround), 0);
      ContributionsAtMostOneEach(v, Step(fps, LookAround), Scanned(v, step, 0));
    }
  }

  /** The frames `extract_frames` keeps, in order: the readable frames at the
      extracted positions, none of them blurry or low in contrast. */
  function ExtractedFrames(v: Video, fps: Rate): (r: seq<Frame>)
    requires Terminates(v, fps)
    ensures |r| == |ExtractedPositions(v, fps)|
    ensures Gated(v, ExtractedPositions(v, fps))
    ensures forall k :: 0 <= k < |r| ==> v.frames[ExtractedPositions(v, fps)[k]] == Some(r[k]) && PassesGates(r[k])
  {
    var ps := ExtractedPositions(v, fps);
    ExtractedFramesAreGated(v, fps);
    seq(|ps|, k requires 0 <= k < |ps| => v.frames[ps[k]].value)
  }

  /** A step of at least one frame means a positive frame rate. */
  lemma PositiveStepNeedsPositiveRate(fps: Rate, interval: Rate)
    requires Step(fps, interval) >= 1
    ensures fps > 0.0
  {
  }

  /** The inner loop of `extract_frames` around sample point `target`: reads
      every position of the window, keeps the first frame of greatest
      sharpness. What the sample point contributes is that frame when it
      passes both gates. */
  method ScanWindow(v: Video, half: nat, target: nat) returns (bestFrame: Option<Frame>, bestFramePos: nat)
    requires target < |v.frames|
    ensures bestFrame.None? <==> BestInWindow(v.frames, WindowStart(target, half), WindowEnd(target, half, |v.frames|)).None?
    ensures bestFrame.Some? ==>
      && BestInWindow(v.frames, WindowStart(target, half), WindowEnd(target, half, |v.frames|)) == Some(bestFramePos)
      && v.frames[bestFramePos] == bestFrame
    ensures v.frames[target].Some? ==> bestFrame.Some?
    ensures Chosen(v, half, target) == if bestFrame.Some? && PassesGates(bestFrame.value) then [bestFramePos] else []
  {
    var startPos := WindowStart(target, half);
    var endPos := WindowEnd(target, half, |v.frames|);
    bestFrame := None;
    var bestLaplacian: int := -1;
    bestFramePos := target;
    for pos := startPos to endPos
      invariant bestFrame.None? <==> BestInWindow(v.frames, startPos, pos).None?
      invariant bestFrame.None? ==> bestLaplacian == -1
      invariant bestFrame.Some? ==>
        && BestInWindow(v.frames, startPos, pos) == Some(bestFramePos)
        && v.frames[bestFramePos] == bestFrame
        && bestLaplacian == bestFrame.value.sharpness
    {
      var frame := v.frames[pos];
      if frame.Some? {
        if frame.value.sharpness > bestLaplacian {
          bestLaplacian := frame.value.sharpness;
          bestFrame := frame;
          bestFramePos := pos;
        }
      }
    }
    BestInWindowIsFirstSharpest(v.frames, startPos, endPos);
  }

  /** The sampling loop of `extract_frames`, once `frame_interval` and
      `look_around_frames` are computed; `zeroRate` says whether `fps` is 0.
      With `fps` 0 the first kept or rejected frame raises on a division by
      `fps`, which the source catches and answers with no frames. A step of 0
      is only admitted when the loop cannot spin: `fps` is 0, there are no
      frames, or the first read fails. */
  method SampleFrames(v: Video, zeroRate: bool, frameInterval: nat, lookAroundFrames: nat)
    returns (frames: seq<Frame>, positions: seq<nat>)
    requires frameInterval >= 1 ==> !zeroRate
    requires frameInterval >= 1 || zeroRate || v.frames == [] || v.frames[0].None?
    ensures positions == (if frameInterval == 0 then [] else SelectFrom(v, frameInterval, lookAroundFrames, 0))
    ensures |frames| == |positions|
    ensures forall k :: 0 <= k < |frames| ==>
      positions[k] < |v.frames| && v.frames[positions[k]].Some? && v.frames[positions[k]].value == frames[k]
  {
    frames, positions := [], [];
    var frameCount := 0;
    var total := |v.frames|;
    while frameCount < total
      invariant frameInterval >= 1 ==>
        Accumulate(v, frameInterval, lookAroundFrames, frameCount, positions) == Accumulate(v, frameInterval, lookAroundFrames, 0, [])
      invariant frameInterval == 0 ==> frameCount == 0 && positions == []
      invariant |frames| == |positions|
      invariant forall k :: 0 <= k < |positions| ==>
        positions[k] < total && v.frames[positions[k]].Some? && v.frames[positions[k]].value == frames[k]
      decreases total - frameCount
    {
      var targetFrame := frameCount;
      if v.frames[targetFrame].None? {
        break;
      }
      var bestFrame, bestFramePos := ScanWindow(v, lookAroundFrames, targetFrame);
      if zeroRate {
        // each of the three gate branches divides by fps
        frames, positions := [], [];
        return;
      }
      assert frameInterval >= 1;
      ghost var before := positions;
      if bestFrame.Some? {
        if IsFrameBlurry(bestFrame.value, BlurThreshold) {
        } else if HasLowContrast(bestFrame.value, ContrastThreshold) {
        } else {
          frames := frames + [bestFrame.value];
          positions := positions + [bestFramePos];
        }
      }
      assert positions == before + Chosen(v, lookAroundFrames, targetFrame);
      frameCount := frameCount + frameInterval;
    }
    if frameInterval >= 1 {
      AccumulateIsSelectFrom(v, frameInterval, lookAroundFrames, 0, []);
      AccumulateIsSelectFrom(v, frameInterval, lookAroundFrames, frameCount, positions);
      assert SelectFrom(v, frameInterval, lookAroundFrames, frameCount) == [];
    }
  }

  /** `extract_frames` with the default interval and look-around. Returns the
      kept frames, their positions, and their timestamps `position / fps`. */
  method ExtractFrames(v: Video, fps: Rate) returns (frames: seq<Frame>, positions: seq<nat>, timestamps: seq<real>)
    requires Terminates(v, fps)
    ensures positions == ExtractedPositions(v, fps)
    ensures frames == ExtractedFrames(v, fps)
    ensures |timestamps| == |positions|
    ensures forall k :: 0 <= k < |timestamps| ==> fps > 0.0 && timestamps[k] == Timestamp(positions[k], fps)
  {
    var frameInterval := Step(fps, SampleInterval);
    var lookAroundFrames := Step(fps, LookAround);
    if frameInterval >= 1 {
      PositiveStepNeedsPositiveRate(fps, SampleInterval);
    }
    frames, positions := SampleFrames(v, fps == 0.0, frameInterval, lookAroundFrames);
    if positions == [] {
      // nothing kept, nothing divided
      timestamps := [];
    } else {
      timestamps := seq(|positions|, k requires 0 <= k < |positions| => Timestamp(positions[k], fps));
    }
  }
}
