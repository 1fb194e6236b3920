/**
 * The integer-pixel stages of the sample pipeline: RemoveMinimap and
 * RemoveImage, which overwrite column bands of the wide sequence image in
 * place, and SplitImages, which cuts it into five frames.
 *
 * Random draws are explicit values in [0, 1): the draw of `torch.rand(1)[0]`.
 * Each in-place stage is specified by a function on grids (HideMinimap,
 * DropFrames) that the method's postcondition ties the new array contents to.
 */
module Transforms {

  import opened Grids
  import opened Seqs

  /** One value of `torch.rand(1)[0]`. */
  type Draw = r: real | 0.0 <= r < 1.0

  /** Number of frames in one sequence image. */
  const FrameCount: nat := 5
  /** First row of the minimap overlay (`image[:, 215:, ...]`). */
  const MinimapTop: nat := 215
  /** Height and width of the zero block written per frame: `torch.zeros((3, 55, 80))`. */
  const MinimapRows: nat := 55
  const MinimapCols: nat := 80
  const MinimapChannels: nat := 3

  /** `int(image.size(2) / 5)`: the width of one frame segment. */
  function SegmentWidth(W: nat): nat
  {
    W / FrameCount
  }

  /** The probability gate `if p > 0: if torch.rand(1)[0] <= p:` for draw `r`. */
  function Fires(p: real, r: Draw): (b: bool)
    ensures p <= 0.0 ==> !b
    ensures 0.0 < p ==> (b <==> r <= p)
    ensures 1.0 <= p ==> b
  {
    0.0 < p && r <= p
  }

  // ---------------------------------------------------------------- minimap

  /** Cell `(h, w)` lies in the zero block written for frame `j`. */
  predicate InMinimapBlock(h: nat, w: nat, width: nat, j: nat)
  {
    MinimapTop <= h && j * width <= w < j * width + MinimapCols
  }

  /** Cell `(h, w)` lies in one of the blocks written for frames `0 .. n-1`. */
  predicate InMinimapBelow(h: nat, w: nat, width: nat, n: nat)
  {
    exists j | 0 <= j < n :: InMinimapBlock(h, w, width, j)
  }

  /** The minimap region of an image whose segments are `width` wide: the union of the five blocks. */
  predicate InMinimap(h: nat, w: nat, width: nat)
  {
    InMinimapBelow(h, w, width, FrameCount)
  }

  /**
   * The assignment of a `(3, 55, 80)` zero tensor to `image[:, 215:, j*width : j*width+80]`
   * for every `j < 5` is well-shaped exactly when the image has 3 channels, 270 rows and
   * the last block ends inside the image.
   */
  predicate MinimapFits(C: nat, H: nat, W: nat)
  {
    C == MinimapChannels && H == MinimapTop + MinimapRows
    && (FrameCount - 1) * SegmentWidth(W) + MinimapCols <= W
  }

  /** The image after RemoveMinimap: when `masked`, every cell of the minimap region is 0. */
  function HideMinimap(g: Grid, masked: bool): (r: Grid)
    requires Rect(g)
    ensures SameShape(r, g)
    ensures forall c, h, w | 0 <= c < |g| && 0 <= h < Height(g) && 0 <= w < Width(g) ::
      r[c][h][w] == (if masked && InMinimap(h, w, SegmentWidth(Width(g))) then 0 else g[c][h][w])
  {
    var width := SegmentWidth(Width(g));
    seq(|g|, c requires 0 <= c < |g| =>
      seq(Height(g), h requires 0 <= h < Height(g) =>
        seq(Width(g), w requires 0 <= w < Width(g) =>
          if masked && InMinimap(h, w, width) then 0 else g[c][h][w])))
  }

  /** `image[:, h0:, w0:w1] = 0`, the slice assignment both in-place stages perform. */
  method ZeroBlock(image: array3<int>, h0: nat, w0: nat, w1: nat)
    requires w0 <= w1 <= image.Length2
    modifies image
    ensures forall c, h, w | 0 <= c < image.Length0 && 0 <= h < image.Length1 && 0 <= w < image.Length2 ::
      image[c, h, w] == (if h0 <= h && w0 <= w < w1 then 0 else old(image[c, h, w]))
  {
    forall c, h, w | 0 <= c < image.Length0 && h0 <= h < image.Length1 && w0 <= w < w1 {
      image[c, h, w] := 0;
    }
  }

  /**
   * RemoveMinimap.__call__: one gate decision for the whole sample; when it fires, the
   * minimap block of each of the five segments is zeroed. Torch rejects the assignment
   * unless the geometry fits, so the geometry is demanded only when the gate fires.
   */
  method RemoveMinimap(image: array3<int>, hideMapProb: real, r: Draw)
    requires Fires(hideMapProb, r) ==> MinimapFits(image.Length0, image.Length1, image.Length2)
    modifies image
    ensures Snapshot(image) == HideMinimap(old(Snapshot(image)), Fires(hideMapProb, r))
  {
    ghost var g := Snapshot(image);
    var width := image.Length2 / 5;
    if hideMapProb > 0.0 {
      if r <= hideMapProb {
        for j := 0 to 5
          invariant forall c, h, w | 0 <= c < image.Length0 && 0 <= h < image.Length1 && 0 <= w < image.Length2 ::
            image[c, h, w] == (if InMinimapBelow(h, w, width, j) then 0 else g[c][h][w])
        {
          if j < 4 {
            PieceBound(width, j, 4);
          }
          ZeroBlock(image, 215, j * width, j * width + 80);
          forall c, h, w | 0 <= c < image.Length0 && 0 <= h < image.Length1 && 0 <= w < image.Length2
            ensures image[c, h, w] == (if InMinimapBelow(h, w, width, j + 1) then 0 else g[c][h][w])
          {
            BelowStep(h, w, width, j);
          }
        }
      }
    }
    SnapshotMatches(image, g, HideMinimap(g, Fires(hideMapProb, r)));
  }

  lemma BelowStep(h: nat, w: nat, width: nat, j: nat)
    ensures InMinimapBelow(h, w, width, j + 1) <==> InMinimapBelow(h, w, width, j) || InMinimapBlock(h, w, width, j)
  {
    if InMinimapBlock(h, w, width, j) {
      assert InMinimapBelow(h, w, width, j + 1);
    }
  }

  /** A grid of the array's shape that agrees with it on every cell is its snapshot. */
  lemma SnapshotMatches(image: array3<int>, g: Grid, expected: Grid)
    requires IsShape(g, image.Length0, image.Length1, image.Length2)
    requires SameShape(expected, g)
    requires forall c, h, w | 0 <= c < image.Length0 && 0 <= h < image.Length1 && 0 <= w < image.Length2 ::
      image[c, h, w] == expected[c][h][w]
    ensures Snapshot(image) == expected
  {
    SameShapeKeepsShape(expected, g, image.Length0, image.Length1, image.Length2);
    GridExt(Snapshot(image), expected, image.Length0, image.Length1, image.Length2);
  }

  // ------------------------------------------------------------ frame drop

  /** Column `w` lies in segment `j` of an image whose segments are `width` wide. */
  predicate InSlot(w: nat, width: nat, j: nat)
  {
    j * width <= w < j * width + width
  }

  /** Column `w` lies in a segment `j < n` whose decision `dropped[j]` is set. */
  predicate DroppedBelow(w: nat, width: nat, dropped: seq<bool>, n: nat)
    requires n <= |dropped|
  {
    exists j | 0 <= j < n :: dropped[j] && InSlot(w, width, j)
  }

  /** The per-slot decisions of RemoveImage: slot `j` is dropped when its gate fires. */
  function DropDecisions(probs: seq<real>, draws: seq<Draw>): (dropped: seq<bool>)
    requires |probs| >= FrameCount && |draws| == FrameCount
    ensures |dropped| == FrameCount
    ensures forall j | 0 <= j < FrameCount :: dropped[j] == Fires(probs[j], draws[j])
  {
    seq(FrameCount, j requires 0 <= j < FrameCount => Fires(probs[j], draws[j]))
  }

  /** The image after RemoveImage: every column of a dropped segment is 0 in every channel and row. */
  function DropFrames(g: Grid, dropped: seq<bool>): (r: Grid)
    requires Rect(g) && |dropped| == FrameCount
    ensures SameShape(r, g)
    ensures forall c, h, w | 0 <= c < |g| && 0 <= h < Height(g) && 0 <= w < Width(g) ::
      r[c][h][w] == (if DroppedBelow(w, SegmentWidth(Width(g)), dropped, FrameCount) then 0 else g[c][h][w])
  {
    var width := SegmentWidth(Width(g));
    seq(|g|, c requires 0 <= c < |g| =>
      seq(Height(g), h requires 0 <= h < Height(g) =>
        seq(Width(g), w requires 0 <= w < Width(g) =>
          if DroppedBelow(w, width, dropped, FrameCount) then 0 else g[c][h][w])))
  }

  /**
   * RemoveImage.__call__: for each slot `j < 5` whose gate fires, the whole column band
   * `image[:, :, j*width : (j+1)*width]` is zeroed. The probability vector is taken as
   * given; it must have an entry for each of the five slots.
   */
  method RemoveImage(image: array3<int>, probs: seq<real>, draws: seq<Draw>)
    requires |probs| >= FrameCount && |draws| == FrameCount
    modifies image
    ensures Snapshot(image) == DropFrames(old(Snapshot(image)), DropDecisions(probs, draws))
  {
    ghost var g := Snapshot(image);
    ghost var dropped := DropDecisions(probs, draws);
    var width := image.Length2 / 5;
    for j := 0 to 5
      invariant forall c, h, w | 0 <= c < image.Length0 && 0 <= h < image.Length1 && 0 <= w < image.Length2 ::
        image[c, h, w] == (if DroppedBelow(w, width, dropped, j) then 0 else g[c][h][w])
    {
      if probs[j] > 0.0 {
        if draws[j] <= probs[j] {
          PieceBound(width, j, 5);
          ZeroBlock(image, 0, j * width, (j + 1) * width);
        }
      }
      forall c, h, w | 0 <= c < image.Length0 && 0 <= h < image.Length1 && 0 <= w < image.Length2
        ensures image[c, h, w] == (if DroppedBelow(w, width, dropped, j + 1) then 0 else g[c][h][w])
      {
        DroppedStep(w, width, dropped, j);
      }
    }
    SnapshotMatches(image, g, DropFrames(g, dropped));
  }

  lemma DroppedStep(w: nat, width: nat, dropped: seq<bool>, j: nat)
    requires j < |dropped|
    ensures DroppedBelow(w, width, dropped, j + 1)
      <==> DroppedBelow(w, width, dropped, j) || (dropped[j] && InSlot(w, width, j))
  {
    if dropped[j] && InSlot(w, width, j) {
      assert DroppedBelow(w, width, dropped, j + 1);
    }
  }

  // ----------------------------------------------------------------- split

  /** Every column of segment `k < 5` lies before column `5 * width`. */
  lemma SlotsBeforeCrop(width: nat)
    ensures forall k, w: nat | 0 <= k < FrameCount && InSlot(w, width, k) :: w < FrameCount * width
  {
    forall k, w: nat | 0 <= k < FrameCount && InSlot(w, width, k)
      ensures w < FrameCount * width
    {
      PieceBound(width, k, FrameCount);
    }
  }

  /**
   * SplitImages.__call__: the five `width`-wide column bands of the image, stacked in
   * order, and the label. Column `w` of segment `k` is column `w - k*width` of frame `k`;
   * columns from `5*width` on belong to no frame.
   */
  function SplitImages<L>(g: Grid, y: L): (out: (seq<Grid>, L))
    requires Rect(g)
    ensures |out.0| == FrameCount && out.1 == y
    ensures forall k | 0 <= k < FrameCount :: IsShape(out.0[k], |g|, Height(g), SegmentWidth(Width(g)))
    ensures forall k, c, h, w: nat | 0 <= k < FrameCount && 0 <= c < |g| && 0 <= h < Height(g) && InSlot(w, SegmentWidth(Width(g)), k) ::
      && w < Width(g)
      && IsShape(out.0[k], |g|, Height(g), SegmentWidth(Width(g)))
      && out.0[k][c][h][w - k * SegmentWidth(Width(g))] == g[c][h][w]
  {
    var width := SegmentWidth(Width(g));
    var frames := seq(FrameCount, k requires 0 <= k < FrameCount =>
      PieceBound(width, k, FrameCount); ColumnSlice(g, k * width, k * width + width));
    SlotsBeforeCrop(width);
    (frames, y)
  }

  // ----------------------------------------------------------------- lemmas

  /** Cutting into frames and joining them back along the width gives the image cropped to `5*width` columns. */
  lemma {:induction false} SplitJoinsToCrop<L>(g: Grid, y: L)
    requires Rect(g)
    ensures Width(g) - FrameCount * SegmentWidth(Width(g)) < FrameCount
    ensures forall c, h | 0 <= c < |g| && 0 <= h < Height(g) ::
      Flatten(seq(FrameCount, k requires 0 <= k < FrameCount => SplitImages(g, y).0[k][c][h]))
        == g[c][h][..FrameCount * SegmentWidth(Width(g))]
  {
    var width := SegmentWidth(Width(g));
    var frames := SplitImages(g, y).0;
    forall c, h | 0 <= c < |g| && 0 <= h < Height(g)
      ensures Flatten(seq(FrameCount, k requires 0 <= k < FrameCount => frames[k][c][h]))
        == g[c][h][..FrameCount * width]
    {
      var row := g[c][h];
      var rows := seq(FrameCount, k requires 0 <= k < FrameCount => frames[k][c][h]);
      forall k | 0 <= k < FrameCount
        ensures rows[k] == Pieces(row, width, FrameCount)[k]
      {
        PieceBound(width, k, FrameCount);
        forall x | 0 <= x < width
          ensures rows[k][x] == row[k * width .. k * width + width][x]
        {
          assert InSlot(k * width + x, width, k);
        }
      }
      assert rows == Pieces(row, width, FrameCount);
      FlattenSlices(row, width, FrameCount);
    }
  }

  /** With segments at least 80 wide, column `k*width + x` is in the minimap region iff `x < 80` (and the row is low enough). */
  lemma {:induction false} MinimapBlockOfFrame(h: nat, k: nat, x: nat, width: nat)
    requires MinimapCols <= width && k < FrameCount && x < width
    ensures InMinimap(h, k * width + x, width) <==> MinimapTop <= h && x < MinimapCols
  {
    var w := k * width + x;
    if InMinimap(h, w, width) {
      var j :| 0 <= j < FrameCount && InMinimapBlock(h, w, width, j);
      if j < k {
        PieceBound(width, j, k);
      } else if j > k {
        PieceBound(width, k, j);
      }
      assert j == k;
    }
    if MinimapTop <= h && x < MinimapCols {
      assert InMinimapBlock(h, w, width, k);
    }
  }

  /** Column `k*width + x` of a segment is dropped iff slot `k` is. */
  lemma {:induction false} DroppedSlotOfFrame(dropped: seq<bool>, k: nat, x: nat, width: nat)
    requires |dropped| == FrameCount && k < FrameCount && x < width
    ensures DroppedBelow(k * width + x, width, dropped, FrameCount) <==> dropped[k]
  {
    var w := k * width + x;
    if DroppedBelow(w, width, dropped, FrameCount) {
      var j :| 0 <= j < FrameCount && dropped[j] && InSlot(w, width, j);
      if j < k {
        PieceBound(width, j, k);
      } else if j > k {
        PieceBound(width, k, j);
      }
      assert j == k;
    }
    if dropped[k] {
      assert InSlot(w, width, k);
    }
  }

  /** `f` is frame `o` with, when `masked`, rows 215.. of columns 0..79 set to 0 in every channel. */
  predicate MaskedFrame(f: Grid, o: Grid, masked: bool)
  {
    && SameShape(f, o)
    && forall c, h, x | 0 <= c < |o| && 0 <= h < |o[c]| && 0 <= x < |o[c][h]| ::
      f[c][h][x] == (if masked && MinimapTop <= h && x < MinimapCols then 0 else o[c][h][x])
  }

  /**
   * The minimap is hidden at the same place in every frame: masking the wide image and then
   * splitting it zeroes rows 215.. and columns 0..79 of each of the five frames, and nothing else.
   */
  lemma MinimapInEveryFrame<L>(g: Grid, masked: bool, y: L)
    requires Rect(g) && MinimapCols <= SegmentWidth(Width(g))
    ensures Rect(HideMinimap(g, masked))
    ensures forall k | 0 <= k < FrameCount ::
      MaskedFrame(SplitImages(HideMinimap(g, masked), y).0[k], SplitImages(g, y).0[k], masked)
  {
    var r := HideMinimap(g, masked);
    SameShapeKeepsRect(r, g);
    var width := SegmentWidth(Width(g));
    forall k | 0 <= k < FrameCount
      ensures MaskedFrame(SplitImages(r, y).0[k], SplitImages(g, y).0[k], masked)
    {
      var f := SplitImages(r, y).0[k];
      var o := SplitImages(g, y).0[k];
      assert IsShape(o, |g|, Height(g), width);
      assert IsShape(f, |g|, Height(g), width);
      forall c, h, x | 0 <= c < |o| && 0 <= h < |o[c]| && 0 <= x < |o[c][h]|
        ensures f[c][h][x] == (if masked && MinimapTop <= h && x < MinimapCols then 0 else o[c][h][x])
      {
        MinimapFrameCell(g, masked, y, k, c, h, x);
      }
    }
  }

  lemma MinimapFrameCell<L>(g: Grid, masked: bool, y: L, k: nat, c: nat, h: nat, x: nat)
    requires Rect(g) && MinimapCols <= SegmentWidth(Width(g))
    requires k < FrameCount && c < |g| && h < Height(g) && x < SegmentWidth(Width(g))
    ensures Rect(HideMinimap(g, masked))
    ensures SplitImages(HideMinimap(g, masked), y).0[k][c][h][x]
         == (if masked && MinimapTop <= h && x < MinimapCols then 0 else SplitImages(g, y).0[k][c][h][x])
  {
    var r := HideMinimap(g, masked);
    SameShapeKeepsRect(r, g);
    var width := SegmentWidth(Width(g));
    var original := SplitImages(g, y).0;
    var hidden := SplitImages(r, y).0;
    var w := k * width + x;
    assert InSlot(w, width, k);
    assert w < Width(g) && original[k][c][h][x] == g[c][h][w];
    assert hidden[k][c][h][x] == r[c][h][w];
    MinimapBlockOfFrame(h, k, x, width);
  }

  /**
   * Dropping slots of the wide image and then splitting it blanks exactly the dropped frames:
   * frame `k` is all zeros when slot `k` is dropped and the original frame otherwise; the
   * columns after the last segment keep their values.
   */
  lemma DroppedFramesAreBlank<L>(g: Grid, dropped: seq<bool>, y: L)
    requires Rect(g) && |dropped| == FrameCount
    ensures Rect(DropFrames(g, dropped))
    ensures forall k | 0 <= k < FrameCount ::
      SplitImages(DropFrames(g, dropped), y).0[k]
        == (if dropped[k] then Zeros(|g|, Height(g), SegmentWidth(Width(g))) else SplitImages(g, y).0[k])
    ensures forall c, h, w | 0 <= c < |g| && 0 <= h < Height(g) && FrameCount * SegmentWidth(Width(g)) <= w < Width(g) ::
      DropFrames(g, dropped)[c][h][w] == g[c][h][w]
  {
    var r := DropFrames(g, dropped);
    SameShapeKeepsRect(r, g);
    var width := SegmentWidth(Width(g));
    forall k | 0 <= k < FrameCount
      ensures SplitImages(r, y).0[k]
        == (if dropped[k] then Zeros(|g|, Height(g), width) else SplitImages(g, y).0[k])
    {
      var expected := if dropped[k] then Zeros(|g|, Height(g), width) else SplitImages(g, y).0[k];
      forall c, h, x | 0 <= c < |g| && 0 <= h < Height(g) && 0 <= x < width
        ensures SplitImages(r, y).0[k][c][h][x] == expected[c][h][x]
      {
        assert InSlot(k * width + x, width, k);
        DroppedSlotOfFrame(dropped, k, x, width);
      }
      GridExt(SplitImages(r, y).0[k], expected, |g|, Height(g), width);
    }
    SlotsBeforeCrop(width);
  }

  /** A probability of zero never touches the image; a probability of one always masks. */
  lemma MinimapGate(g: Grid, p: real, r: Draw)
    requires Rect(g)
    ensures p <= 0.0 ==> HideMinimap(g, Fires(p, r)) == g
    ensures 1.0 <= p ==> HideMinimap(g, Fires(p, r)) == HideMinimap(g, true)
  {
    if p <= 0.0 {
      GridExt(HideMinimap(g, false), g, |g|, Height(g), Width(g));
    }
  }

  /** A dropout vector with no positive entry never touches the image, whatever the draws. */
  lemma NoDropWithZeroVector(g: Grid, probs: seq<real>, draws: seq<Draw>)
    requires Rect(g) && |probs| >= FrameCount && |draws| == FrameCount
    requires forall j | 0 <= j < FrameCount :: probs[j] <= 0.0
    ensures DropFrames(g, DropDecisions(probs, draws)) == g
  {
    var dropped := DropDecisions(probs, draws);
    forall w: nat
      ensures !DroppedBelow(w, SegmentWidth(Width(g)), dropped, FrameCount)
    {
    }
    GridExt(DropFrames(g, dropped), g, |g|, Height(g), Width(g));
  }
}
