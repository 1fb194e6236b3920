/**
 * Concatenation of a sequence of sequences, the value-level meaning of
 * `torch.cat` along the leading dimension, with its length and index lemmas.
 */
module Seqs {

  /** `ss[0] + ss[1] + ... + ss[|ss|-1]`, in order. */
  function Flatten<T>(ss: seq<seq<T>>): seq<T>
  {
    if |ss| == 0 then [] else Flatten(ss[..|ss| - 1]) + ss[|ss| - 1]
  }

  /** Every element of `ss` has exactly `k` entries. */
  predicate Uniform<T>(ss: seq<seq<T>>, k: nat)
  {
    forall i | 0 <= i < |ss| :: |ss[i]| == k
  }

  /** A value repeated `n` times: Python's `[x] * n` for `n >= 0`. */
  function Repeat<T>(x: T, n: nat): (r: seq<T>)
    ensures |r| == n
    ensures forall i | 0 <= i < n :: r[i] == x
  {
    seq(n, _ => x)
  }

  /** Flattening `k`-long pieces gives `k * |ss|` elements. */
  lemma {:induction false} FlattenUniformLength<T>(ss: seq<seq<T>>, k: nat)
    requires Uniform(ss, k)
    ensures |Flatten(ss)| == k * |ss|
  {
    if |ss| > 0 {
      FlattenUniformLength(ss[..|ss| - 1], k);
    }
  }

  /** Piece `i` of a flattening of `k`-long pieces sits at positions `k*i .. k*i+k-1`. */
  lemma {:induction false} FlattenUniformIndex<T>(ss: seq<seq<T>>, k: nat, i: nat, j: nat)
    requires Uniform(ss, k)
    requires i < |ss| && j < k
    ensures |Flatten(ss)| == k * |ss|
    ensures k * i + j < k * |ss|
    ensures Flatten(ss)[k * i + j] == ss[i][j]
  {
    var n := |ss|;
    var front := ss[..n - 1];
    FlattenUniformLength(ss, k);
    FlattenUniformLength(front, k);
    var head := Flatten(front);
    assert Flatten(ss) == head + ss[n - 1];
    var pos := k * i + j;
    OffsetBelow(k, i, j, n);
    if i < n - 1 {
      FlattenUniformIndex(front, k, i, j);
      OffsetBelow(k, i, j, n - 1);
      assert pos < |head|;
      assert (head + ss[n - 1])[pos] == head[pos];
    } else {
      assert i == n - 1;
      assert |head| == k * i;
      assert pos - |head| == j;
      assert (head + ss[n - 1])[pos] == ss[n - 1][j];
    }
  }

  /** `k*i + j < k*m` whenever `i < m` and `j < k`. */
  lemma {:induction false} OffsetBelow(k: nat, i: nat, j: nat, m: nat)
    requires i < m && j < k
    ensures k * i + j < k * m
    decreases m
  {
    assert k * m == k * (m - 1) + k;
    if i < m - 1 {
      OffsetBelow(k, i, j, m - 1);
    }
  }

  /** Cutting `s` into `n` consecutive `w`-wide pieces and joining them gives the first `n*w` elements. */
  lemma {:induction false} FlattenSlices<T>(s: seq<T>, w: nat, n: nat)
    requires n * w <= |s|
    ensures Flatten(Pieces(s, w, n)) == s[..n * w]
  {
    if n > 0 {
      var last := (n - 1) * w;
      assert last + w == n * w;
      assert Pieces(s, w, n)[..n - 1] == Pieces(s, w, n - 1);
      FlattenSlices(s, w, n - 1);
      assert s[..last] + s[last .. last + w] == s[..n * w];
    } else {
      assert Pieces(s, w, n) == [];
    }
  }

  /** The `n` consecutive `w`-wide pieces `s[k*w .. k*w+w]`, `k < n`. */
  function Pieces<T>(s: seq<T>, w: nat, n: nat): (r: seq<seq<T>>)
    requires n * w <= |s|
    ensures |r| == n
  {
    seq(n, k requires 0 <= k < n => PieceBound(w, k, n); s[k * w .. k * w + w])
  }

  lemma {:induction false} PieceBound(w: nat, k: nat, n: nat)
    requires k < n
    ensures k * w + w <= n * w
    decreases n
  {
    assert n * w == (n - 1) * w + w;
    if k < n - 1 {
      PieceBound(w, k, n - 1);
    }
  }
}
