/**
 * Images as integer grids indexed `[channel][row][column]`, the value-level
 * view of a `(C, H, W)` image tensor, and the view of an `array3<int>` as one.
 */
module Grids {

  type Grid = seq<seq<seq<int>>>

  /** `g` is a `(C, H, W)` tensor: `C` channels of `H` rows of `W` columns. */
  predicate IsShape(g: Grid, C: nat, H: nat, W: nat)
  {
    && |g| == C
    && (forall c | 0 <= c < C :: |g[c]| == H)
    && (forall c, h | 0 <= c < C && 0 <= h < H :: |g[c][h]| == W)
  }

  function Height(g: Grid): nat
  {
    if |g| == 0 then 0 else |g[0]|
  }

  /** `image.size(2)`; a grid without cells has width 0. */
  function Width(g: Grid): nat
  {
    if |g| == 0 || |g[0]| == 0 then 0 else |g[0][0]|
  }

  /** `g` is rectangular: a tensor of the shape its first row gives. */
  predicate Rect(g: Grid)
  {
    IsShape(g, |g|, Height(g), Width(g))
  }

  /** `r` has exactly the dimensions of `g`, cell for cell. */
  predicate SameShape(r: Grid, g: Grid)
  {
    && |r| == |g|
    && (forall c | 0 <= c < |g| :: |r[c]| == |g[c]|)
    && (forall c, h | 0 <= c < |g| && 0 <= h < |g[c]| :: |r[c][h]| == |g[c][h]|)
  }

  lemma SameShapeKeepsShape(r: Grid, g: Grid, C: nat, H: nat, W: nat)
    requires SameShape(r, g) && IsShape(g, C, H, W)
    ensures IsShape(r, C, H, W)
  {
  }

  lemma SameShapeKeepsRect(r: Grid, g: Grid)
    requires SameShape(r, g) && Rect(g)
    ensures Rect(r) && Height(r) == Height(g) && Width(r) == Width(g)
  {
  }

  /** The grid holding the current contents of a 3-D array. */
  ghost function Snapshot(a: array3<int>): (g: Grid)
    reads a
    ensures IsShape(g, a.Length0, a.Length1, a.Length2)
    ensures forall c, h, w | 0 <= c < a.Length0 && 0 <= h < a.Length1 && 0 <= w < a.Length2 ::
      g[c][h][w] == a[c, h, w]
  {
    seq(a.Length0, c requires 0 <= c < a.Length0 reads a =>
      seq(a.Length1, h requires 0 <= h < a.Length1 reads a =>
        seq(a.Length2, w requires 0 <= w < a.Length2 reads a => a[c, h, w])))
  }

  /** Two grids of one shape that agree on every cell are equal. */
  lemma GridExt(g1: Grid, g2: Grid, C: nat, H: nat, W: nat)
    requires IsShape(g1, C, H, W) && IsShape(g2, C, H, W)
    requires forall c, h, w | 0 <= c < C && 0 <= h < H && 0 <= w < W :: g1[c][h][w] == g2[c][h][w]
    ensures g1 == g2
  {
    forall c | 0 <= c < C
      ensures g1[c] == g2[c]
    {
      forall h | 0 <= h < H
        ensures g1[c][h] == g2[c][h]
      {
        assert forall w | 0 <= w < W :: g1[c][h][w] == g2[c][h][w];
      }
    }
  }

  /** `g[:, :, lo:hi]`. */
  function ColumnSlice(g: Grid, lo: nat, hi: nat): (r: Grid)
    requires Rect(g) && lo <= hi <= Width(g)
    ensures IsShape(r, |g|, Height(g), hi - lo)
    ensures forall c, h, x | 0 <= c < |g| && 0 <= h < Height(g) && 0 <= x < hi - lo ::
      r[c][h][x] == g[c][h][lo + x]
  {
    seq(|g|, c requires 0 <= c < |g| =>
      seq(Height(g), h requires 0 <= h < Height(g) => g[c][h][lo..hi]))
  }

  /** `torch.zeros((C, H, W))`. */
  function Zeros(C: nat, H: nat, W: nat): (r: Grid)
    ensures IsShape(r, C, H, W)
    ensures forall c, h, w | 0 <= c < C && 0 <= h < H && 0 <= w < W :: r[c][h][w] == 0
  {
    seq(C, _ => seq(H, _ => seq(W, _ => 0)))
  }
}
