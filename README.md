# Poker-chip counter: colour rule and running total

The counter watches a webcam, finds the outer contours of objects (poker
chips) in each frame, takes the mean blue/green/red colour inside each
contour, classifies that colour as a chip category with a fixed value, and
keeps a running total of the values. This project models the two pieces of
logic in `count.py` that sit on top of the image-processing plumbing:

- `detect_colors`: the five-way, first-match-wins decision on a mean
  (b, g, r) triple (module `ChipColors`, file `chip_colors.dfy`). It is pure,
  so it is a function (`DetectColor`) with a first-match specification
  (`FirstMatch`) and lemmas.
- The `total_value` accumulation in `main` (module `ChipCounter`, file
  `chip_counter.dfy`). The source mutates a local with `+=` in a `for` loop
  over each frame's contours inside the capture loop. The model keeps those
  two loops as methods (`AccumulateFrame`, `Run`) whose loop invariants tie
  the total to the specification functions `FrameCents` and `TotalCents`.

Channel means are `real` (the source gets floats from `cv2.mean`). Money is
kept in integer cents: black 500, white 10, green 100, red 20, unknown 0. A
frame is given as the sequence of mean triples of its contours, one per
contour in the order the contour finder returns them.

The green and red rules are reproduced as written and proved unreachable for
any mean whose blue channel is not negative: green needs blue < 0 and red < 0,
and red needs red > 255 together with green < 0 and blue < 0. The code's red
rule compares green with `red[1]`, and the reference triple `red` is
(0, 0, 255), so the rule needs green < 0.

The four rules are pairwise disjoint: no triple satisfies two of them. The
first-match order of the if/elif chain therefore never changes which category
a triple gets.

## Model

| member | source | states |
|---|---|---|
| `ChipColors.DetectColor` | count.py:16-39 | the returned category is the first one, in the order black, white, green, red, unknown, whose rule holds of the triple; the returned value is the fixed value bound to that category |
| `ChipColors.ValueCents` | count.py:31-39 | no chip is worth more than 5.00, and a category carries value 0 exactly when it is unknown |
| `ChipColors.FirstMatchUnique` | count.py:30-39 | the classifier is total and single-valued: a category is the first match of a triple if and only if it is the one the classifier returns |
| `ChipColors.BlackWins` | count.py:30-31 | any triple with all three channels below 30 is black with value 5.00 |
| `ChipColors.ValueDependsOnlyOnCategory` | count.py:30-39 | two triples classified into the same category get the same value |
| `ChipColors.StrictThresholds` | count.py:23-24 | the comparisons are strict: a triple with any channel at 30 or more is never black, one with any channel at 220 or less is never white, and (30, 30, 30) and (220, 220, 220) are both unknown with value 0 |
| `ChipColors.RulesDisjoint` | count.py:30-37 | no triple satisfies two of the black, white, green and red rules, so the priority order never decides a result |
| `ChipColors.NonNegativeBlueOnlyBlackWhiteUnknown` | count.py:34-37 | with a blue mean that is not negative the result is black, white or unknown; it is black exactly when the black rule holds and white exactly when the white rule holds |
| `ChipColors.InRangeCategoriesReachable` | count.py:30-39 | black, white and unknown are each produced by some in-range triple |
| `ChipColors.GreenRedNeedOutOfRange` | count.py:25-26 | a green result forces blue < 0 and red < 0; a red result forces red > 255, green < 0 and blue < 0; both branches do fire on such out-of-range triples |
| `ChipCounter.FrameCents` | count.py:67-69 | a frame's contribution is at most 5.00 per contour and is 0 for a frame without contours |
| `ChipCounter.TotalCents` | count.py:58-69 | the value of a run of frames is at most 5.00 per contour over all its frames |
| `ChipCounter.AccumulateFrame` | count.py:67-69 | processing a frame's contours leaves the total equal to the prior total plus the sum of each contour's classified value, and never lowers it |
| `ChipCounter.Run` | count.py:54-69 | starting from 0, after the frames read so far the total is the sum of their frame values and is never negative |
| `ChipCounter.FrameCentsAppend` | count.py:67-69 | the value of the concatenation of two contour lists is the sum of their values |
| `ChipCounter.TotalIsSumOfAllContours` | count.py:56-69 | the total over a run of frames equals the sum of the classified values of every contour of every frame, none dropped or counted twice within the run |
| `ChipCounter.TotalMonotone` | count.py:56-69 | the total after more frames is never smaller than the total after fewer |
| `ChipCounter.FrameCentsByCategory` | count.py:30-39 | a frame's value is 5.00 per black, 0.10 per white, 1.00 per green and 0.20 per red contour |
| `ChipCounter.NonNegativeBlueFrameCents` | count.py:34-37 | when no contour's blue mean is negative no contour is green or red, so a frame's value is 5.00 per black plus 0.10 per white contour |
| `ChipCounter.EmptyFrameKeepsTotal` | count.py:64-69 | a frame with no contours leaves the total unchanged |
| `ChipCounter.MixedFrame` | count.py:67-69 | a frame whose three contours are classified black, white and green adds 6.10 to whatever total came before |

## Left out

- Camera setup, frame capture, the exit on a camera that cannot be opened, and resource release (count.py:5-13, 59-62, 82-83): device I/O. `Run` takes the frames read before the loop stopped as a finite sequence.
- `process_frame` (count.py:42-51): grayscale, Gaussian blur, Canny and `findContours` are OpenCV image-processing calls. A frame is given directly as its contours' mean triples.
- Building the contour mask and computing the masked mean (count.py:18-21, 28): foreign calls with floating-point averaging. The mean triple is a parameter. The unreachability results assume only that the blue mean is not negative, which a floating-point mean of non-negative samples keeps.
- Rendering the contour outlines, the per-contour label, the total label with `:.2f`, `imshow`, and the 'q' key that ends the loop (count.py:70-80): UI. The category returned alongside the value is only used for the label.
- `ChipCounter.AccumulateFrame`: values are integer cents, not Python floats, so the binary-float drift of summing 0.10 and 0.20 is not modelled.
- `ChipCounter.Run`: the capture loop is unbounded in the source; the model covers the finite prefix of frames processed so far.
