/**
 * What an accepted round means for the chain: laid end to end, its blocks are
 * exactly the heights `head + 1, head + 2, ..., head + n`, with no gap, no
 * repeat and nothing missing. The validator accepts precisely such rounds
 * (provided the round and each of its bundles are non-empty).
 */
module RollupRun {
  import opened Wrappers
  import opened Rollup

  /** All blocks of a round in round order. */
  function Flatten(bs: seq<Bundle>): seq<Block>
  {
    if bs == [] then [] else Flatten(bs[..|bs| - 1]) + bs[|bs| - 1].blocks
  }

  /** `blocks` are the heights `start, start + 1, ...` in order. */
  predicate RunFrom(blocks: seq<Block>, start: Height) {
    forall k :: 0 <= k < |blocks| ==> blocks[k] == Some(start + k)
  }

  /** The reference meaning of "this round may be submitted on top of `head`". */
  predicate Accepted(bs: seq<Bundle>, head: Height) {
    bs != [] && AllNonEmpty(bs) && RunFrom(Flatten(bs), head + 1)
  }

  lemma {:induction false} FlattenAppend(bs: seq<Bundle>, b: Bundle)
    ensures Flatten(bs + [b]) == Flatten(bs) + b.blocks
  {
    assert (bs + [b])[..|bs + [b]| - 1] == bs;
  }

  /** Block `j` of bundle `i` sits at offset `|Flatten(bs[..i])| + j` of the flattened round. */
  lemma {:induction false} FlattenAt(bs: seq<Bundle>, i: nat, j: nat)
    requires i < |bs| && j < |bs[i].blocks|
    ensures |Flatten(bs[..i])| + j < |Flatten(bs)|
    ensures Flatten(bs)[|Flatten(bs[..i])| + j] == bs[i].blocks[j]
  {
    var n := |bs| - 1;
    var init := bs[..n];
    assert bs == init + [bs[n]];
    FlattenAppend(init, bs[n]);
    if i < n {
      assert init[..i] == bs[..i];
      FlattenAt(init, i, j);
    } else {
      assert init == bs[..i];
    }
  }

  /** A non-empty, nil-free, gapless bundle is the run starting at its first height. */
  lemma {:induction false} GaplessIsRun(b: Bundle, n: nat)
    requires b.blocks != [] && NilFree(b) && Gapless(b) && n <= |b.blocks|
    ensures RunFrom(b.blocks[..n], First(b))
  {
    if n > 1 {
      GaplessIsRun(b, n - 1);
      assert StepAt(b, n - 1);
      assert b.blocks[..n] == b.blocks[..n - 1] + [b.blocks[n - 1]];
    }
  }

  lemma RunAppend(a: seq<Block>, c: seq<Block>, start: Height)
    requires RunFrom(a, start) && RunFrom(c, start + |a|)
    ensures RunFrom(a + c, start)
  {
    forall k | 0 <= k < |a + c|
      ensures (a + c)[k] == Some(start + k)
    {
      if k >= |a| {
        assert (a + c)[k] == c[k - |a|];
      }
    }
  }

  /**
   * Every prefix of a round that passes all checks is a run from `head + 1`
   * whose last height is `head` plus its length.
   */
  lemma {:induction false} PrefixIsRun(bs: seq<Bundle>, head: Height, n: nat)
    requires AllNonEmpty(bs) && AllNilFree(bs) && AllGapless(bs) && AllStartRight(bs, head)
    requires 1 <= n <= |bs|
    ensures RunFrom(Flatten(bs[..n]), head + 1)
    ensures Last(bs[n - 1]) == head + |Flatten(bs[..n])|
  {
    var b := bs[n - 1];
    assert bs[..n] == bs[..n - 1] + [b];
    FlattenAppend(bs[..n - 1], b);
    GaplessIsRun(b, |b.blocks|);
    assert b.blocks[..|b.blocks|] == b.blocks;
    assert StartsRight(bs, head, n - 1);
    if n == 1 {
      assert bs[..0] == [];
    } else {
      PrefixIsRun(bs, head, n - 1);
      RunAppend(Flatten(bs[..n - 1]), b.blocks, head + 1);
    }
  }

  /** Soundness: an accepted round is exactly the heights `head + 1 .. head + n`. */
  lemma ValidateSound(bs: seq<Bundle>, head: Height)
    requires Validate(bs, head) == Pass
    ensures Accepted(bs, head)
  {
    ValidatePasses(bs, head);
    PrefixIsRun(bs, head, |bs|);
    assert bs[..|bs|] == bs;
  }

  /** Completeness: a non-empty round of non-empty bundles forming that run is accepted. */
  lemma ValidateComplete(bs: seq<Bundle>, head: Height)
    requires Accepted(bs, head)
    ensures Validate(bs, head) == Pass
  {
    forall i, j | 0 <= i < |bs| && 0 <= j < |bs[i].blocks|
      ensures bs[i].blocks[j] == Some(head + 1 + |Flatten(bs[..i])| + j)
    {
      FlattenAt(bs, i, j);
    }
    assert AllNilFree(bs);
    forall i | 0 <= i < |bs|
      ensures Gapless(bs[i])
    {
      forall j | 1 <= j < |bs[i].blocks|
        ensures StepAt(bs[i], j)
      {
      }
    }
    forall i | 0 <= i < |bs|
      ensures StartsRight(bs, head, i)
    {
      if i > 0 {
        assert bs[..i] == bs[..i - 1] + [bs[i - 1]];
        FlattenAppend(bs[..i - 1], bs[i - 1]);
      }
    }
    ValidatePasses(bs, head);
  }
}
