/**
 * The sequencing check a round of bundles must pass before anything is sent
 * to the DA network: `ValidateBundles(bundles, head)` of package `rollup`.
 *
 * A round is accepted when it is non-empty, holds no empty bundle and no nil
 * block, every bundle's heights rise by exactly one, bundle 0 starts at
 * `head + 1` and every later bundle starts one above the last height of the
 * bundle before it. The checks run in that order over the whole round and the
 * first violation found is the one reported.
 */
module Rollup {
  import opened Wrappers

  /** An L2 block height. */
  type Height = nat

  /** One slot of a bundle's `Blocks` slice: `None` is a nil block pointer, `Some(h)` a block at height `h`. */
  type Block = Option<Height>

  /** A `node.Bundle`; the check reads only its ordered `Blocks`. */
  datatype Bundle = Bundle(blocks: seq<Block>)

  /** The five ways a round can be rejected; indices are 0-based positions in the round and in a bundle. */
  datatype ValidationError =
    | BundlesEmpty
    | BundleEmpty(bundle: nat)
    | BlockNil(block: nat, bundle: nat)
    | NotSequential(block: nat, bundle: nat)
    | FirstBlockWrongHeight(bundle: nat)

  // ---------------------------------------------------------------------------
  // What an accepted round looks like, stated one condition at a time
  // ---------------------------------------------------------------------------

  predicate AllNonEmpty(bs: seq<Bundle>) {
    forall i :: 0 <= i < |bs| ==> bs[i].blocks != []
  }

  predicate NilFree(b: Bundle) {
    forall j :: 0 <= j < |b.blocks| ==> b.blocks[j].Some?
  }

  predicate AllNilFree(bs: seq<Bundle>) {
    forall i :: 0 <= i < |bs| ==> NilFree(bs[i])
  }

  /** Block `j` of a nil-free bundle sits exactly one above block `j - 1`. */
  predicate StepAt(b: Bundle, j: nat)
    requires NilFree(b) && 1 <= j < |b.blocks|
  {
    b.blocks[j].value == b.blocks[j - 1].value + 1
  }

  predicate Gapless(b: Bundle)
    requires NilFree(b)
  {
    forall j :: 1 <= j < |b.blocks| ==> StepAt(b, j)
  }

  predicate AllGapless(bs: seq<Bundle>)
    requires AllNilFree(bs)
  {
    forall i :: 0 <= i < |bs| ==> Gapless(bs[i])
  }

  function First(b: Bundle): Height
    requires b.blocks != [] && NilFree(b)
  {
    b.blocks[0].value
  }

  function Last(b: Bundle): Height
    requires b.blocks != [] && NilFree(b)
  {
    b.blocks[|b.blocks| - 1].value
  }

  /** The height bundle `i` must start at: `head + 1` for bundle 0, one past the previous bundle's last block otherwise. */
  function ExpectedFirst(bs: seq<Bundle>, head: Height, i: nat): Height
    requires AllNonEmpty(bs) && AllNilFree(bs) && i < |bs|
  {
    if i == 0 then head + 1 else Last(bs[i - 1]) + 1
  }

  predicate StartsRight(bs: seq<Bundle>, head: Height, i: nat)
    requires AllNonEmpty(bs) && AllNilFree(bs) && i < |bs|
  {
    First(bs[i]) == ExpectedFirst(bs, head, i)
  }

  predicate AllStartRight(bs: seq<Bundle>, head: Height)
    requires AllNonEmpty(bs) && AllNilFree(bs)
  {
    forall i :: 0 <= i < |bs| ==> StartsRight(bs, head, i)
  }

  // ---------------------------------------------------------------------------
  // The scans, each returning the first violation of its kind
  // ---------------------------------------------------------------------------

  /** First empty bundle at index `i` or later. */
  function CheckEmpty(bs: seq<Bundle>, i: nat): (r: Option<ValidationError>)
    requires i <= |bs|
    ensures r.Some? ==> r.value.BundleEmpty? && i <= r.value.bundle < |bs|
                        && bs[r.value.bundle].blocks == []
                        && forall k :: i <= k < r.value.bundle ==> bs[k].blocks != []
    ensures r.None? <==> forall k :: i <= k < |bs| ==> bs[k].blocks != []
    decreases |bs| - i
  {
    if i == |bs| then None
    else if bs[i].blocks == [] then Some(BundleEmpty(i))
    else CheckEmpty(bs, i + 1)
  }

  /** Position of the first nil slot of `blocks` at `j` or later. */
  function FindNil(blocks: seq<Block>, j: nat): (r: Option<nat>)
    requires j <= |blocks|
    ensures r.Some? ==> j <= r.value < |blocks| && blocks[r.value].None?
                        && forall l :: j <= l < r.value ==> blocks[l].Some?
    ensures r.None? <==> forall l :: j <= l < |blocks| ==> blocks[l].Some?
    decreases |blocks| - j
  {
    if j == |blocks| then None
    else if blocks[j].None? then Some(j)
    else FindNil(blocks, j + 1)
  }

  /** First nil block, bundle by bundle, from bundle `i` on. */
  function CheckNil(bs: seq<Bundle>, i: nat): (r: Option<ValidationError>)
    requires i <= |bs|
    ensures r.Some? ==> r.value.BlockNil? && i <= r.value.bundle < |bs|
                        && r.value.block < |bs[r.value.bundle].blocks|
                        && bs[r.value.bundle].blocks[r.value.block].None?
                        && (forall k :: i <= k < r.value.bundle ==> NilFree(bs[k]))
                        && (forall l :: 0 <= l < r.value.block ==> bs[r.value.bundle].blocks[l].Some?)
    ensures r.None? <==> forall k :: i <= k < |bs| ==> NilFree(bs[k])
    decreases |bs| - i
  {
    if i == |bs| then None
    else match FindNil(bs[i].blocks, 0)
      case Some(j) => Some(BlockNil(j, i))
      case None => CheckNil(bs, i + 1)
  }

  /** Position of the first block at `j` or later (`j >= 1`) that is not one above its predecessor. */
  function FindGap(b: Bundle, j: nat): (r: Option<nat>)
    requires NilFree(b) && 1 <= j <= |b.blocks|
    ensures r.Some? ==> j <= r.value < |b.blocks| && !StepAt(b, r.value)
                        && forall l :: j <= l < r.value ==> StepAt(b, l)
    ensures r.None? <==> forall l :: j <= l < |b.blocks| ==> StepAt(b, l)
    decreases |b.blocks| - j
  {
    if j == |b.blocks| then None
    else if !StepAt(b, j) then Some(j)
    else FindGap(b, j + 1)
  }

  /** First height gap inside a bundle, bundle by bundle, from bundle `i` on. */
  function CheckSequential(bs: seq<Bundle>, i: nat): (r: Option<ValidationError>)
    requires AllNonEmpty(bs) && AllNilFree(bs) && i <= |bs|
    ensures r.Some? ==> r.value.NotSequential? && i <= r.value.bundle < |bs|
                        && 1 <= r.value.block < |bs[r.value.bundle].blocks|
                        && !StepAt(bs[r.value.bundle], r.value.block)
                        && (forall k :: i <= k < r.value.bundle ==> Gapless(bs[k]))
                        && (forall l :: 1 <= l < r.value.block ==> StepAt(bs[r.value.bundle], l))
    ensures r.None? <==> forall k :: i <= k < |bs| ==> Gapless(bs[k])
    decreases |bs| - i
  {
    if i == |bs| then None
    else match FindGap(bs[i], 1)
      case Some(j) => Some(NotSequential(j, i))
      case None => CheckSequential(bs, i + 1)
  }

  /** First bundle, from bundle `i` on, that does not start at its expected height. */
  function CheckHeights(bs: seq<Bundle>, head: Height, i: nat): (r: Option<ValidationError>)
    requires AllNonEmpty(bs) && AllNilFree(bs) && i <= |bs|
    ensures r.Some? ==> r.value.FirstBlockWrongHeight? && i <= r.value.bundle < |bs|
                        && !StartsRight(bs, head, r.value.bundle)
                        && forall k :: i <= k < r.value.bundle ==> StartsRight(bs, head, k)
    ensures r.None? <==> forall k :: i <= k < |bs| ==> StartsRight(bs, head, k)
    decreases |bs| - i
  {
    if i == |bs| then None
    else if !StartsRight(bs, head, i) then Some(FirstBlockWrongHeight(i))
    else CheckHeights(bs, head, i + 1)
  }

  // ---------------------------------------------------------------------------
  // The validator
  // ---------------------------------------------------------------------------

  /** The verdict on a round whose last anchored height is `head`. */
  function Validate(bs: seq<Bundle>, head: Height): Outcome<ValidationError>
  {
    if |bs| == 0 then Fail(BundlesEmpty)
    else match CheckEmpty(bs, 0)
      case Some(e) => Fail(e)
      case None =>
        match CheckNil(bs, 0)
        case Some(e) => Fail(e)
        case None =>
          match CheckSequential(bs, 0)
          case Some(e) => Fail(e)
          case None =>
            match CheckHeights(bs, head, 0)
            case Some(e) => Fail(e)
            case None => Pass
  }

  /** Accepted exactly when every condition holds. */
  lemma ValidatePasses(bs: seq<Bundle>, head: Height)
    ensures Validate(bs, head) == Pass <==>
      bs != [] && AllNonEmpty(bs) && AllNilFree(bs) && AllGapless(bs) && AllStartRight(bs, head)
  {
  }

  /** "bundles are empty" is reported for the empty round and nothing else, whatever `head` is. */
  lemma ReportsEmptyRound(bs: seq<Bundle>, head: Height)
    ensures Validate(bs, head) == Fail(BundlesEmpty) <==> bs == []
  {
  }

  /** "bundle i is empty" names the first empty bundle of a non-empty round. */
  lemma ReportsEmptyBundle(bs: seq<Bundle>, head: Height, i: nat)
    ensures Validate(bs, head) == Fail(BundleEmpty(i)) <==>
      i < |bs| && bs[i].blocks == [] && forall k :: 0 <= k < i ==> bs[k].blocks != []
  {
  }

  /**
   * "block j in bundle i is nil" names the first nil block, in round order,
   * of a round with no empty bundle.
   */
  lemma ReportsNilBlock(bs: seq<Bundle>, head: Height, i: nat, j: nat)
    ensures Validate(bs, head) == Fail(BlockNil(j, i)) <==>
      bs != [] && AllNonEmpty(bs)
      && i < |bs| && j < |bs[i].blocks| && bs[i].blocks[j].None?
      && (forall k :: 0 <= k < i ==> NilFree(bs[k]))
      && (forall l :: 0 <= l < j ==> bs[i].blocks[l].Some?)
  {
  }

  /**
   * "block j in bundle i is not sequential" names, in round order, the first
   * block that is not one above its predecessor in the same bundle, once no
   * bundle is empty and no block is nil.
   */
  lemma ReportsGap(bs: seq<Bundle>, head: Height, i: nat, j: nat)
    ensures Validate(bs, head) == Fail(NotSequential(j, i)) <==>
      bs != [] && AllNonEmpty(bs) && AllNilFree(bs)
      && i < |bs| && 1 <= j < |bs[i].blocks| && !StepAt(bs[i], j)
      && (forall k :: 0 <= k < i ==> Gapless(bs[k]))
      && (forall l :: 1 <= l < j ==> StepAt(bs[i], l))
  {
  }

  /**
   * "first block in bundle i is not the correct height" names the first bundle
   * that does not start where it must, once every bundle is non-empty, nil-free
   * and gapless; later misplaced bundles are not reported.
   */
  lemma ReportsWrongStart(bs: seq<Bundle>, head: Height, i: nat)
    ensures Validate(bs, head) == Fail(FirstBlockWrongHeight(i)) <==>
      bs != [] && AllNonEmpty(bs) && AllNilFree(bs) && AllGapless(bs)
      && i < |bs| && !StartsRight(bs, head, i)
      && forall k :: 0 <= k < i ==> StartsRight(bs, head, k)
  {
  }

  // ---------------------------------------------------------------------------
  // The validator as loops over the slices
  // ---------------------------------------------------------------------------

  /** `ValidateBundles` walking the round with index loops; it returns what `Validate` specifies. */
  method ValidateBundles(bundles: seq<Bundle>, head: Height) returns (result: Outcome<ValidationError>)
    ensures result == Validate(bundles, head)
  {
    if |bundles| == 0 {
      return Fail(BundlesEmpty);
    }
    var i := 0;
    while i < |bundles|
      invariant 0 <= i <= |bundles|
      invariant forall k :: 0 <= k < i ==> bundles[k].blocks != []
    {
      if bundles[i].blocks == [] {
        ReportsEmptyBundle(bundles, head, i);
        return Fail(BundleEmpty(i));
      }
      i := i + 1;
    }
    i := 0;
    while i < |bundles|
      invariant 0 <= i <= |bundles|
      invariant forall k :: 0 <= k < i ==> NilFree(bundles[k])
    {
      var blocks := bundles[i].blocks;
      var j := 0;
      while j < |blocks|
        invariant 0 <= j <= |blocks|
        invariant forall l :: 0 <= l < j ==> blocks[l].Some?
      {
        if blocks[j].None? {
          ReportsNilBlock(bundles, head, i, j);
          return Fail(BlockNil(j, i));
        }
        j := j + 1;
      }
      i := i + 1;
    }
    i := 0;
    while i < |bundles|
      invariant 0 <= i <= |bundles|
      invariant forall k :: 0 <= k < i ==> Gapless(bundles[k])
    {
      var blocks := bundles[i].blocks;
      var j := 1;
      while j < |blocks|
        invariant 1 <= j <= |blocks|
        invariant forall l :: 1 <= l < j ==> StepAt(bundles[i], l)
      {
        if blocks[j].value != blocks[j - 1].value + 1 {
          ReportsGap(bundles, head, i, j);
          return Fail(NotSequential(j, i));
        }
        j := j + 1;
      }
      i := i + 1;
    }
    var expected := head + 1;
    i := 0;
    while i < |bundles|
      invariant 0 <= i <= |bundles|
      invariant forall k :: 0 <= k < i ==> StartsRight(bundles, head, k)
      invariant i < |bundles| ==> expected == ExpectedFirst(bundles, head, i)
    {
      var blocks := bundles[i].blocks;
      if blocks[0].value != expected {
        ReportsWrongStart(bundles, head, i);
        return Fail(FirstBlockWrongHeight(i));
      }
      expected := blocks[|blocks| - 1].value + 1;
      i := i + 1;
    }
    ValidatePasses(bundles, head);
    return Pass;
  }
}
