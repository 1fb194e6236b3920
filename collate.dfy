/**
 * collate_fn: a batch of samples becomes one frame tensor, one mask tensor and one
 * label tensor. Frames and masks are concatenated along their leading dimension
 * (`torch.cat(..., dim=0)`), labels are stacked along a new one (`torch.stack`).
 */
module Collate {

  import opened Seqs

  /** One dataset item: its frame stack, its attention mask rows and its label `y`. */
  datatype Sample<F, M, L> = Sample(frames: seq<F>, mask: seq<M>, y: L)

  /** The dictionary `{"images": ..., "attention_mask": ..., "y": ...}`. */
  datatype Batch<F, M, L> = Batch(images: seq<F>, attentionMask: seq<M>, y: seq<L>)

  function FramesOf<F, M, L>(batch: seq<Sample<F, M, L>>): (r: seq<seq<F>>)
    ensures |r| == |batch| && forall i | 0 <= i < |batch| :: r[i] == batch[i].frames
  {
    seq(|batch|, i requires 0 <= i < |batch| => batch[i].frames)
  }

  function MasksOf<F, M, L>(batch: seq<Sample<F, M, L>>): (r: seq<seq<M>>)
    ensures |r| == |batch| && forall i | 0 <= i < |batch| :: r[i] == batch[i].mask
  {
    seq(|batch|, i requires 0 <= i < |batch| => batch[i].mask)
  }

  /**
   * collate_fn. `torch.cat` and `torch.stack` reject an empty list, so a batch holds at
   * least one sample. Labels keep their order, one per sample.
   */
  function CollateFn<F, M, L>(batch: seq<Sample<F, M, L>>): (r: Batch<F, M, L>)
    requires |batch| > 0
    ensures |r.y| == |batch|
    ensures forall i | 0 <= i < |batch| :: r.y[i] == batch[i].y
  {
    Batch(Flatten(FramesOf(batch)), Flatten(MasksOf(batch)), seq(|batch|, i requires 0 <= i < |batch| => batch[i].y))
  }

  /**
   * With five frames per sample, the batch holds `5N` frames and sample `i`'s frames
   * occupy positions `5i .. 5i+4`, in order.
   */
  lemma CollateFrameLayout<F, M, L>(batch: seq<Sample<F, M, L>>, i: nat, k: nat)
    requires |batch| > 0
    requires forall s | s in batch :: |s.frames| == 5
    requires i < |batch| && k < 5
    ensures |CollateFn(batch).images| == 5 * |batch|
    ensures CollateFn(batch).images[5 * i + k] == batch[i].frames[k]
  {
    var frames := FramesOf(batch);
    forall j | 0 <= j < |frames|
      ensures |frames[j]| == 5
    {
      assert batch[j] in batch;
    }
    FlattenUniformIndex(frames, 5, i, k);
  }

  /**
   * The masks are concatenated in sample order: with `m` mask rows per sample the batch
   * holds `m*N` rows and sample `i`'s rows occupy positions `m*i .. m*i+m-1`.
   */
  lemma CollateMaskLayout<F, M, L>(batch: seq<Sample<F, M, L>>, m: nat, i: nat, k: nat)
    requires |batch| > 0
    requires forall s | s in batch :: |s.mask| == m
    requires i < |batch| && k < m
    ensures m * i + k < m * |batch| == |CollateFn(batch).attentionMask|
    ensures CollateFn(batch).attentionMask[m * i + k] == batch[i].mask[k]
  {
    var masks := MasksOf(batch);
    forall j | 0 <= j < |masks|
      ensures |masks[j]| == m
    {
      assert batch[j] in batch;
    }
    FlattenUniformIndex(masks, m, i, k);
    OffsetBelow(m, i, k, |batch|);
  }

  /** Collating a batch is collating its first part and its last sample and joining the results. */
  lemma {:induction false} CollateAppend<F, M, L>(batch: seq<Sample<F, M, L>>, s: Sample<F, M, L>)
    requires |batch| > 0
    ensures CollateFn(batch + [s]).images == CollateFn(batch).images + s.frames
    ensures CollateFn(batch + [s]).attentionMask == CollateFn(batch).attentionMask + s.mask
    ensures CollateFn(batch + [s]).y == CollateFn(batch).y + [s.y]
  {
    var all := batch + [s];
    assert FramesOf(all)[..|batch|] == FramesOf(batch);
    assert MasksOf(all)[..|batch|] == MasksOf(batch);
  }
}
