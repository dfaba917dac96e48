/** The running total of the poker-chip counter. Every frame yields a
    sequence of contours; each contour is reduced to its mean colour, which
    is classified, and the chip's value is added to the total. Nothing is
    ever subtracted and frames are not deduplicated. */
module ChipCounter {
  import opened ChipColors

  /** The value, in cents, of one frame's contours: the sum of the value
      of each contour's classification. */
  function FrameCents(means: seq<Bgr>): (cents: nat)
    ensures cents <= 500 * |means|
    ensures means == [] ==> cents == 0
  {
    if means == [] then 0
    else FrameCents(means[..|means| - 1]) + DetectColor(means[|means| - 1]).cents
  }

  /** All contours of all frames, in order. */
  function Flatten(frames: seq<seq<Bgr>>): (all: seq<Bgr>)
  {
    if frames == [] then [] else Flatten(frames[..|frames| - 1]) + frames[|frames| - 1]
  }

  /** The value, in cents, of a run of frames: the sum of each frame's value. */
  function TotalCents(frames: seq<seq<Bgr>>): (cents: nat)
    ensures cents <= 500 * |Flatten(frames)|
  {
    if frames == [] then 0
    else
      var last := frames[|frames| - 1];
      assert |Flatten(frames)| == |Flatten(frames[..|frames| - 1])| + |last|;
      TotalCents(frames[..|frames| - 1]) + FrameCents(last)
  }

  /** Number of contours in `means` classified as `c`. */
  function CountOf(means: seq<Bgr>, c: Category): (n: nat)
    ensures n <= |means|
  {
    if means == [] then 0
    else CountOf(means[..|means| - 1], c) + (if DetectColor(means[|means| - 1]).category == c then 1 else 0)
  }

  /** One pass of the per-contour loop: classifies every contour's mean and
      adds its value onto the running total. */
  method AccumulateFrame(total: int, means: seq<Bgr>) returns (newTotal: int)
    ensures newTotal == total + FrameCents(means)
    ensures newTotal >= total
  {
    newTotal := total;
    for i := 0 to |means|
      invariant newTotal == total + FrameCents(means[..i])
    {
      var detection := DetectColor(means[i]);
      assert means[..i + 1][..i] == means[..i];
      newTotal := newTotal + detection.cents;
    }
    assert means[..|means|] == means;
  }

  /** The capture loop over the frames read before the loop stopped (a failed
      read or the quit key): the total starts at 0 and each frame's
      contours are added onto it. */
  method Run(frames: seq<seq<Bgr>>) returns (total: int)
    ensures total == TotalCents(frames)
    ensures total >= 0
  {
    total := 0;
    for i := 0 to |frames|
      invariant total == TotalCents(frames[..i])
    {
      assert frames[..i + 1][..i] == frames[..i];
      total := AccumulateFrame(total, frames[i]);
    }
    assert frames[..|frames|] == frames;
  }

  /** The value of a frame split in two is the sum of the values of the parts. */
  lemma {:induction false} FrameCentsAppend(a: seq<Bgr>, b: seq<Bgr>)
    ensures FrameCents(a + b) == FrameCents(a) + FrameCents(b)
    decreases |b|
  {
    if b != [] {
      var b' := b[..|b| - 1];
      assert (a + b)[..|a + b| - 1] == a + b';
      FrameCentsAppend(a, b');
    } else {
      assert a + b == a;
    }
  }

  /** The total over a run of frames is the sum over all their contours:
      no contour is dropped and none is counted twice within the run. */
  lemma {:induction false} TotalIsSumOfAllContours(frames: seq<seq<Bgr>>)
    ensures TotalCents(frames) == FrameCents(Flatten(frames))
    decreases |frames|
  {
    if frames != [] {
      var init := frames[..|frames| - 1];
      TotalIsSumOfAllContours(init);
      FrameCentsAppend(Flatten(init), frames[|frames| - 1]);
    }
  }

  /** The total never decreases as more frames are processed. */
  lemma {:induction false} TotalMonotone(frames: seq<seq<Bgr>>, i: nat, j: nat)
    requires i <= j <= |frames|
    ensures TotalCents(frames[..i]) <= TotalCents(frames[..j])
    decreases j - i
  {
    if i < j {
      TotalMonotone(frames, i, j - 1);
      assert frames[..j][..j - 1] == frames[..j - 1];
    }
  }

  /** A frame's value is the value of each category times the number of its
      contours classified into that category. */
  lemma {:induction false} FrameCentsByCategory(means: seq<Bgr>)
    ensures FrameCents(means) ==
      500 * CountOf(means, Black) + 10 * CountOf(means, White) +
      100 * CountOf(means, Green) + 20 * CountOf(means, Red)
    decreases |means|
  {
    if means != [] {
      FrameCentsByCategory(means[..|means| - 1]);
    }
  }

  /** For means whose blue channel is not negative only black and white
      chips add anything. */
  lemma {:induction false} NonNegativeBlueFrameCents(means: seq<Bgr>)
    requires forall i :: 0 <= i < |means| ==> means[i].b >= 0.0
    ensures CountOf(means, Green) == 0 && CountOf(means, Red) == 0
    ensures FrameCents(means) == 500 * CountOf(means, Black) + 10 * CountOf(means, White)
    decreases |means|
  {
    if means != [] {
      var init := means[..|means| - 1];
      NonNegativeBlueFrameCents(init);
      NonNegativeBlueOnlyBlackWhiteUnknown(means[|means| - 1]);
    }
    FrameCentsByCategory(means);
  }

  /** A frame with no contours leaves the total unchanged. */
  lemma EmptyFrameKeepsTotal(frames: seq<seq<Bgr>>)
    ensures TotalCents(frames + [[]]) == TotalCents(frames)
  {
    assert (frames + [[]])[..|frames|] == frames;
  }

  /** A frame whose three contours are classified black, white and green
      adds 5.00 + 0.10 + 1.00 = 6.10 to whatever total came before. */
  lemma MixedFrame(frames: seq<seq<Bgr>>, x: Bgr, y: Bgr, z: Bgr)
    requires DetectColor(x).category == Black
    requires DetectColor(y).category == White
    requires DetectColor(z).category == Green
    ensures TotalCents(frames + [[x, y, z]]) == TotalCents(frames) + 610
  {
    var f := [x, y, z];
    assert (frames + [f])[..|frames|] == frames;
    assert f[..2][..1] == f[..1];
    assert f[..1][..0] == [];
    assert FrameCents(f[..1]) == 500;
    assert FrameCents(f[..2]) == 510;
    assert f[..3] == f;
    assert FrameCents(f) == 610;
  }
}
