/**
 * The background track as the pipeline reshapes it: a clip is its frame
 * width, frame height and duration. It is turned upright for a portrait
 * canvas, scaled up to cover the canvas, centre-cropped to it, looped to
 * outlast the narration and cut to the narration's length.
 */
module Background {
  import opened Outcomes

  type NonNeg = r: real | r >= 0.0

  datatype Clip = Clip(w: NonNeg, h: NonNeg, duration: NonNeg)

  predicate IsPortrait(w: real, h: real)
  {
    h > w
  }

  /** `rotated(angle=-90)`: a quarter turn swaps the frame's sides. */
  function Rotated(c: Clip): Clip
  {
    Clip(c.h, c.w, c.duration)
  }

  /**
   * The orientation step: the clip is turned only when the canvas is
   * portrait and the clip is not (a square clip is turned too).
   */
  function Oriented(c: Clip, tw: nat, th: nat): (r: Clip)
    ensures r.duration == c.duration
    ensures IsPortrait(tw as real, th as real) && !IsPortrait(c.w, c.h) ==> r.w == c.h && r.h == c.w
    ensures !IsPortrait(tw as real, th as real) || IsPortrait(c.w, c.h) ==> r == c
    ensures IsPortrait(tw as real, th as real) && c.w != c.h ==> IsPortrait(r.w, r.h)
  {
    if IsPortrait(tw as real, th as real) && !IsPortrait(c.w, c.h) then Rotated(c) else c
  }

  function Max(a: real, b: real): real
  {
    if a >= b then a else b
  }

  /** The uniform factor that makes a w-by-h frame cover the canvas on its binding side. */
  function ScaleFactor(w: real, h: real, tw: nat, th: nat): real
    requires w > 0.0 && h > 0.0
  {
    Max(tw as real / w, th as real / h)
  }

  /** `resized(factor)`: both sides scale, the duration stays. */
  function Resized(c: Clip, factor: real): Clip
    requires factor > 0.0
  {
    Clip(c.w * factor, c.h * factor, c.duration)
  }

  /** The pixel window a centred crop takes from the frame. */
  datatype Window = Window(x1: real, y1: real, x2: real, y2: real)

  function CentreWindow(c: Clip, tw: nat, th: nat): Window
  {
    Window(c.w / 2.0 - tw as real / 2.0, c.h / 2.0 - th as real / 2.0,
           c.w / 2.0 + tw as real / 2.0, c.h / 2.0 + th as real / 2.0)
  }

  /**
   * `cropped(x_center=w/2, y_center=h/2, width=tw, height=th)`. The window is
   * clamped to the frame, so the result is tw by th only when the frame
   * covers the canvas; the pipeline crops no other frame.
   */
  function Cropped(c: Clip, tw: nat, th: nat): Clip
    requires c.w >= tw as real && c.h >= th as real
  {
    Clip(tw as real, th as real, c.duration)
  }

  /** `int(total / d) + 2`, the number of copies the loop concatenates. */
  function LoopCount(total: NonNeg, d: real): nat
    requires d > 0.0
  {
    (total / d).Floor + 2
  }

  /** `concatenate_videoclips([clip] * n)`: same frame, n times the duration. */
  function Looped(c: Clip, n: nat): Clip
  {
    Clip(c.w, c.h, n as real * c.duration)
  }

  /** `subclipped(0, end)`; moviepy refuses an end beyond the clip. */
  function Subclipped(c: Clip, end: NonNeg): Clip
    requires end <= c.duration
  {
    Clip(c.w, c.h, end)
  }

  /**
   * After the optional up-scaling the frame covers the canvas: if the factor
   * exceeds 1 the scaled frame reaches at least tw by th, and otherwise the
   * frame was already at least that large.
   */
  lemma ScaledFrameCovers(c: Clip, tw: nat, th: nat)
    requires c.w > 0.0 && c.h > 0.0
    ensures var f := ScaleFactor(c.w, c.h, tw, th);
      && (f > 1.0 ==> c.w * f >= tw as real && c.h * f >= th as real)
      && (f <= 1.0 ==> c.w >= tw as real && c.h >= th as real)
  {
    var f := ScaleFactor(c.w, c.h, tw, th);
    CoverSide(c.w, tw as real, f);
    CoverSide(c.h, th as real, f);
  }

  /** One side: a factor at least t/x takes x to at least t, and a factor at most 1 means x was already that long. */
  lemma CoverSide(x: real, t: real, f: real)
    requires x > 0.0 && f >= t / x
    ensures x * f >= t
    ensures f <= 1.0 ==> x >= t
  {
    var s := t / x;
    assert s * x == t;
    MulMonotone(x, s, f);
    if f <= 1.0 {
      MulMonotone(x, f, 1.0);
    }
  }

  lemma MulMonotone(x: real, a: real, b: real)
    requires x > 0.0 && a <= b
    ensures x * a <= x * b
  {
  }

  /** A centred crop of a frame that covers the canvas lies inside the frame and is exactly tw by th. */
  lemma CentreWindowFits(c: Clip, tw: nat, th: nat)
    requires c.w >= tw as real && c.h >= th as real
    ensures var win := CentreWindow(c, tw, th);
      && 0.0 <= win.x1 && win.x2 <= c.w && 0.0 <= win.y1 && win.y2 <= c.h
      && win.x2 - win.x1 == tw as real && win.y2 - win.y1 == th as real
  {
  }

  /** Looping `int(T/d) + 2` times gives a track strictly longer than T. */
  lemma LoopOutlasts(total: NonNeg, d: real)
    requires d > 0.0
    ensures LoopCount(total, d) as real * d > total
  {
    var q := total / d;
    assert q * d == total;
    assert (q.Floor as real) > q - 1.0;
    var n := LoopCount(total, d) as real;
    assert n > q + 1.0;
    MulMonotone(d, q + 1.0, n);
    assert n * d >= (q + 1.0) * d == total + d;
  }

  /**
   * The frame has to be rescaled but has a zero side, or the track has to be
   * looped but has no length: either division raises.
   */
  predicate AdaptFails(source: Clip, tw: nat, th: nat, total: real)
  {
    || ((source.w != tw as real || source.h != th as real) && (source.w == 0.0 || source.h == 0.0))
    || (source.duration < total && source.duration == 0.0)
  }

  /**
   * Lines 151-170: scale and crop when the frame differs from the canvas,
   * loop when the track is shorter than the narration, then cut it to the
   * narration's length. The divisions raise on a zero side or a zero
   * duration, outside any handler.
   */
  method Adapt(source: Clip, tw: nat, th: nat, total: NonNeg) returns (r: Result<Clip>)
    ensures r.Err? <==> AdaptFails(source, tw, th, total)
    ensures r.Err? ==> r.failure == Failure(OtherError, BackgroundGeometry)
    ensures r.Ok? ==> r.value == Clip(tw as real, th as real, total)
  {
    var clip := source;
    if clip.w != tw as real || clip.h != th as real {
      if clip.w == 0.0 || clip.h == 0.0 {
        return Err(Failure(OtherError, BackgroundGeometry));
      }
      var factor := ScaleFactor(clip.w, clip.h, tw, th);
      ScaledFrameCovers(clip, tw, th);
      if factor > 1.0 {
        clip := Resized(clip, factor);
      }
      CentreWindowFits(clip, tw, th);
      clip := Cropped(clip, tw, th);
    }
    if clip.duration < total {
      if clip.duration == 0.0 {
        return Err(Failure(OtherError, BackgroundGeometry));
      }
      var n := LoopCount(total, clip.duration);
      LoopOutlasts(total, clip.duration);
      clip := Looped(clip, n);
    }
    clip := Subclipped(clip, total);
    r := Ok(clip);
  }
}
