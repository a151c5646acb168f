/** The motion estimator's arithmetic: the summed RGB difference between two RGBA frames. */
module Motion {
  import opened Settings

  /** Pixels in one frame of the 640 x 480 canvas. */
  const PIXELS: nat := FRAME_WIDTH * FRAME_HEIGHT

  predicate IsByte(v: int) {
    0 <= v <= 255
  }

  /** `getImageData(...).data` of the canvas: four bytes (R, G, B, alpha) per pixel. */
  predicate ValidFrame(f: seq<int>) {
    |f| == 4 * PIXELS && forall i :: 0 <= i < |f| ==> IsByte(f[i])
  }

  function Abs(v: int): nat {
    if v < 0 then -v else v
  }

  /** |dR| + |dG| + |dB| of pixel p; the alpha byte at 4p + 3 is skipped. */
  function PixelDiff(a: seq<int>, b: seq<int>, p: nat): nat
    requires 4 * p + 2 < |a| && 4 * p + 2 < |b|
  {
    Abs(a[4 * p] - b[4 * p]) + Abs(a[4 * p + 1] - b[4 * p + 1]) + Abs(a[4 * p + 2] - b[4 * p + 2])
  }

  /** The accumulated difference over the first n pixels. */
  function DiffSum(a: seq<int>, b: seq<int>, n: nat): nat
    requires 4 * n <= |a| && 4 * n <= |b|
  {
    if n == 0 then 0 else DiffSum(a, b, n - 1) + PixelDiff(a, b, n - 1)
  }

  /** The value `measureMotion` returns once a previous frame is stored. */
  function MotionScore(frame: seq<int>, prev: seq<int>): real
    requires ValidFrame(frame) && ValidFrame(prev)
  {
    DiffSum(frame, prev, PIXELS) as real / (FRAME_WIDTH * FRAME_HEIGHT) as real
  }

  /** The loop of `measureMotion`: `diff` summed over i = 0, 4, 8, ... below the length. */
  method FrameDifference(a: seq<int>, b: seq<int>) returns (diff: int)
    requires |a| % 4 == 0 && |b| == |a|
    ensures diff == DiffSum(a, b, |a| / 4)
  {
    diff := 0;
    var i := 0;
    while i < |a|
      invariant 0 <= i <= |a| && i % 4 == 0
      invariant diff == DiffSum(a, b, i / 4)
    {
      diff := diff + Abs(a[i] - b[i]) + Abs(a[i + 1] - b[i + 1]) + Abs(a[i + 2] - b[i + 2]);
      i := i + 4;
    }
  }

  lemma {:induction false} DiffSumOfIdentical(a: seq<int>, n: nat)
    requires 4 * n <= |a|
    ensures DiffSum(a, a, n) == 0
  {
    if n > 0 {
      DiffSumOfIdentical(a, n - 1);
    }
  }

  /** Two identical frames show no motion. */
  lemma IdenticalFramesNoMotion(f: seq<int>)
    requires ValidFrame(f)
    ensures MotionScore(f, f) == 0.0
  {
    DiffSumOfIdentical(f, PIXELS);
  }

  lemma {:induction false} DiffSumSymmetric(a: seq<int>, b: seq<int>, n: nat)
    requires 4 * n <= |a| && 4 * n <= |b|
    ensures DiffSum(a, b, n) == DiffSum(b, a, n)
  {
    if n > 0 {
      DiffSumSymmetric(a, b, n - 1);
    }
  }

  /** The score does not depend on which of the two frames is the stored one. */
  lemma MotionSymmetric(f: seq<int>, g: seq<int>)
    requires ValidFrame(f) && ValidFrame(g)
    ensures MotionScore(f, g) == MotionScore(g, f)
  {
    DiffSumSymmetric(f, g, PIXELS);
  }

  lemma {:induction false} DiffSumBounded(a: seq<int>, b: seq<int>, n: nat)
    requires 4 * n <= |a| && 4 * n <= |b|
    requires forall i :: 0 <= i < 4 * n ==> IsByte(a[i]) && IsByte(b[i])
    ensures DiffSum(a, b, n) <= 765 * n
  {
    if n > 0 {
      DiffSumBounded(a, b, n - 1);
      var p := n - 1;
      assert IsByte(a[4 * p]) && IsByte(b[4 * p]);
      assert IsByte(a[4 * p + 1]) && IsByte(b[4 * p + 1]);
      assert IsByte(a[4 * p + 2]) && IsByte(b[4 * p + 2]);
    }
  }

  /** The score is a mean over pixels of three byte differences: between 0 and 3 x 255. */
  lemma MotionBounded(f: seq<int>, g: seq<int>)
    requires ValidFrame(f) && ValidFrame(g)
    ensures 0.0 <= MotionScore(f, g) <= 765.0
  {
    DiffSumBounded(f, g, PIXELS);
  }

  lemma {:induction false} DiffSumIgnoresAlpha(a: seq<int>, a': seq<int>, b: seq<int>, n: nat)
    requires 4 * n <= |a| && |a'| == |a| && 4 * n <= |b|
    requires forall i :: 0 <= i < |a| && i % 4 != 3 ==> a'[i] == a[i]
    ensures DiffSum(a', b, n) == DiffSum(a, b, n)
  {
    if n > 0 {
      DiffSumIgnoresAlpha(a, a', b, n - 1);
      var p := n - 1;
      assert (4 * p) % 4 == 0 && (4 * p + 1) % 4 == 1 && (4 * p + 2) % 4 == 2;
    }
  }

  /** Changing only alpha bytes of a frame does not change the score. */
  lemma MotionIgnoresAlpha(f: seq<int>, f': seq<int>, g: seq<int>)
    requires ValidFrame(f) && ValidFrame(f') && ValidFrame(g)
    requires forall i :: 0 <= i < |f| && i % 4 != 3 ==> f'[i] == f[i]
    ensures MotionScore(f', g) == MotionScore(f, g)
  {
    DiffSumIgnoresAlpha(f, f', g, PIXELS);
  }

  lemma {:induction false} DiffSumAtLeast(a: seq<int>, b: seq<int>, n: nat, c: nat)
    requires 4 * n <= |a| && 4 * n <= |b|
    requires forall p :: 0 <= p < n ==> PixelDiff(a, b, p) >= c
    ensures DiffSum(a, b, n) >= c * n
  {
    if n > 0 {
      DiffSumAtLeast(a, b, n - 1, c);
    }
  }

  /** When every pixel changed by at least c in total over its colour channels, the score is at
      least c. */
  lemma UniformChangeLowerBound(f: seq<int>, g: seq<int>, c: nat)
    requires ValidFrame(f) && ValidFrame(g)
    requires forall p :: 0 <= p < PIXELS ==> PixelDiff(f, g, p) >= c
    ensures MotionScore(f, g) >= c as real
  {
    DiffSumAtLeast(f, g, PIXELS, c);
  }
}
