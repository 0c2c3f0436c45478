/** Sequences built block by block, as the encoder's nested loops build its
    logs: `Concat(f, m)` is f(0) + f(1) + ... + f(m - 1), and `Tagged`
    pairs every entry with the index of the graph it belongs to. */
module Blocks {

  /** The blocks f(0), ..., f(m - 1), one after another. */
  function Concat<T>(f: int -> seq<T>, m: nat): seq<T> {
    if m == 0 then [] else Concat(f, m - 1) + f(m - 1)
  }

  /** An entry of the concatenation comes from one of the blocks, and
      every entry of every block is in it. */
  lemma {:induction false} ConcatMember<T>(f: int -> seq<T>, m: nat, x: T)
    ensures x in Concat(f, m) <==> exists j :: 0 <= j < m && x in f(j)
  {
    if m > 0 {
      ConcatMember(f, m - 1, x);
      assert Concat(f, m) == Concat(f, m - 1) + f(m - 1);
    }
  }

  /** With blocks of a common length L, the concatenation of m blocks
      has length m * L. */
  lemma {:induction false} ConcatLength<T>(f: int -> seq<T>, m: nat, L: nat)
    requires forall j :: 0 <= j < m ==> |f(j)| == L
    ensures |Concat(f, m)| == m * L
  {
    if m > 0 {
      ConcatLength(f, m - 1, L);
      assert (m - 1) * L + L == m * L;
    }
  }

  /** With blocks of a common length L, entry r of block j sits at
      position j * L + r. */
  lemma {:induction false} ConcatAt<T>(f: int -> seq<T>, m: nat, L: nat, j: int, r: int)
    requires forall j :: 0 <= j < m ==> |f(j)| == L
    requires 0 <= j < m && 0 <= r < L
    ensures j * L + r < |Concat(f, m)| && Concat(f, m)[j * L + r] == f(j)[r]
  {
    ConcatLength(f, m - 1, L);
    ConcatLength(f, m, L);
    var front, p := Concat(f, m - 1), j * L + r;
    assert Concat(f, m) == front + f(m - 1);
    if j < m - 1 {
      ConcatAt(f, m - 1, L, j, r);
      assert Concat(f, m)[p] == front[p];
    } else {
      assert p == |front| + r;
    }
  }

  /** Every entry of `xs`, paired with the graph index `gi`. */
  function Tagged<T>(gi: int, xs: seq<T>): (r: seq<(int, T)>)
    ensures |r| == |xs|
  {
    seq(|xs|, k requires 0 <= k < |xs| => (gi, xs[k]))
  }

  /** Tagging a concatenation tags its parts. */
  lemma TaggedAppend<T>(gi: int, xs: seq<T>, ys: seq<T>)
    ensures Tagged(gi, xs + ys) == Tagged(gi, xs) + Tagged(gi, ys)
  {
    assert forall k :: 0 <= k < |xs| + |ys| ==>
      Tagged(gi, xs + ys)[k] == (Tagged(gi, xs) + Tagged(gi, ys))[k];
  }

  /** Logging xs and then ys for graph gi logs xs + ys for it. */
  lemma TaggedExtend<T>(log: seq<(int, T)>, gi: int, xs: seq<T>, ys: seq<T>)
    ensures log + Tagged(gi, xs) + Tagged(gi, ys) == log + Tagged(gi, xs + ys)
  {
    TaggedAppend(gi, xs, ys);
  }

  /** Appending in two steps appends the concatenation. */
  lemma AppendAssoc<T>(a: seq<T>, b: seq<T>, c: seq<T>)
    ensures a + b + c == a + (b + c)
  {
  }

  /** A prefix one longer is the prefix and the next entry. */
  lemma PrefixSnoc<T>(s: seq<T>, t: nat)
    requires t < |s|
    ensures s[..t + 1] == s[..t] + [s[t]]
  {
  }

  /** Logging one more entry for graph gi. */
  lemma TaggedSnoc<T>(log: seq<(int, T)>, gi: int, xs: seq<T>, x: T)
    ensures log + Tagged(gi, xs) + [(gi, x)] == log + Tagged(gi, xs + [x])
  {
    TaggedAppend(gi, xs, [x]);
    assert Tagged(gi, [x]) == [(gi, x)];
  }

  /** Logging entry t of `xs` for graph gi after its first t entries logs
      its first t + 1 entries. */
  lemma TaggedPrefixSnoc<T>(log: seq<(int, T)>, gi: int, xs: seq<T>, t: nat)
    requires t < |xs|
    ensures log + Tagged(gi, xs[..t]) + [(gi, xs[t])] == log + Tagged(gi, xs[..t + 1])
  {
    PrefixSnoc(xs, t);
    TaggedSnoc(log, gi, xs[..t], xs[t]);
  }

  /** The same entries `xs` logged once for each graph 0, ..., bsz - 1. */
  function Batch<T>(bsz: nat, xs: seq<T>): seq<(int, T)> {
    Concat(gi => Tagged(gi, xs), bsz)
  }

  /** Graph gi's copy of entry k of `xs` sits at position gi * |xs| + k,
      so every graph of the batch receives an identical sequence. */
  lemma BatchAt<T>(bsz: nat, xs: seq<T>, gi: int, k: int)
    requires 0 <= gi < bsz && 0 <= k < |xs|
    ensures gi * |xs| + k < |Batch(bsz, xs)| && Batch(bsz, xs)[gi * |xs| + k] == (gi, xs[k])
  {
    var f := gi => Tagged(gi, xs);
    assert Batch(bsz, xs) == Concat(f, bsz);
    ConcatAt(f, bsz, |xs|, gi, k);
    assert f(gi)[k] == (gi, xs[k]);
  }

  /** Logging xs for one more graph extends the batch. */
  lemma BatchExtend<T>(log: seq<(int, T)>, bsz: nat, xs: seq<T>)
    ensures log + Batch(bsz, xs) + Tagged(bsz, xs) == log + Batch(bsz + 1, xs)
  {
    var f := gi => Tagged(gi, xs);
    assert Batch(bsz + 1, xs) == Concat(f, bsz + 1) == Concat(f, bsz) + f(bsz);
  }
}
