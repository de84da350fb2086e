/**
 * The table of `TestValidateBundles`: each case gives a round, a head and the
 * error text expected (empty for success). A case passes when a non-nil error
 * has exactly that text, and a nil error is only returned when no text is expected.
 */
module RollupCases {
  import opened Wrappers
  import opened Rollup
  import opened RollupErrors
  import opened Decimal

  datatype TestCase = TestCase(bundles: seq<Bundle>, head: Height, errStr: string)

  /** A bundle of blocks at the given heights. */
  function At(heights: seq<Height>): (b: Bundle)
    ensures |b.blocks| == |heights| && NilFree(b)
    ensures forall k :: 0 <= k < |heights| ==> b.blocks[k] == Some(heights[k])
  {
    if heights == [] then Bundle([])
    else Bundle([Some(heights[0])] + At(heights[1..]).blocks)
  }

  /** The check the test loop applies to one case. */
  predicate CasePasses(c: TestCase) {
    var err := Validate(c.bundles, c.head);
    !(err.Fail? && ErrorText(err) != c.errStr) && !(err.Pass? && c.errStr != "")
  }

  /** The eight cases of the table, in order. */
  function Cases(): seq<TestCase> {
    [ // three consecutive bundles on top of head 1
      TestCase([At([2, 3, 4]), At([5, 6, 7]), At([8, 9, 10])], 1, ""),
      // no bundles at all
      TestCase([], 6, "bundles are empty"),
      // the only bundle has no blocks
      TestCase([Bundle([])], 6, "bundle 0 is empty"),
      // the second bundle has no blocks
      TestCase([At([2, 3, 4]), Bundle([])], 1, "bundle 1 is empty"),
      // the round starts at 2 but the head is 0
      TestCase([At([2, 3, 4]), At([5, 6, 7]), At([8, 9, 10])], 0,
               "first block in bundle 0 is not the correct height"),
      // the second bundle holds a nil block
      TestCase([At([2, 3, 4]), Bundle([None])], 1, "block 0 in bundle 1 is nil"),
      // height 6 is skipped inside the second bundle
      TestCase([At([2, 3, 4]), At([5, 7, 8]), At([9, 10, 11])], 1,
               "block 1 in bundle 1 is not sequential"),
      // heights 5 and 6 are skipped between the first and second bundle
      TestCase([At([2, 3, 4]), At([7, 8, 9]), At([12, 13, 14])], 1,
               "first block in bundle 1 is not the correct height") ]
  }

  // The exact texts the failing cases expect. Each proof substitutes the
  // printed digits and then joins the literal pieces, one join per lemma.

  lemma TextBundleEmpty0()
    ensures Message(BundleEmpty(0)) == "bundle 0 is empty"
  {
    calc {
      Message(BundleEmpty(0));
      { assert NatToString(0) == "0"; }
      "bundle " + ("0" + " is empty");
      "bundle " + "0 is empty";
      "bundle 0 is empty";
    }
  }

  lemma TextBundleEmpty1()
    ensures Message(BundleEmpty(1)) == "bundle 1 is empty"
  {
    calc {
      Message(BundleEmpty(1));
      { assert NatToString(1) == "1"; }
      "bundle " + ("1" + " is empty");
      "bundle " + "1 is empty";
      "bundle 1 is empty";
    }
  }

  lemma WrongStartTail0()
    ensures "0" + " is not the correct height" == "0 is not the correct height"
  {
  }

  lemma WrongStartHead0()
    ensures "first block in bundle " + "0 is not the correct height"
         == "first block in bundle 0 is not the correct height"
  {
  }

  lemma TextWrongStart0()
    ensures Message(FirstBlockWrongHeight(0)) == "first block in bundle 0 is not the correct height"
  {
    assert NatToString(0) == "0";
    WrongStartTail0();
    WrongStartHead0();
  }

  lemma WrongStartTail1()
    ensures "1" + " is not the correct height" == "1 is not the correct height"
  {
  }

  lemma WrongStartHead1()
    ensures "first block in bundle " + "1 is not the correct height"
         == "first block in bundle 1 is not the correct height"
  {
  }

  lemma TextWrongStart1()
    ensures Message(FirstBlockWrongHeight(1)) == "first block in bundle 1 is not the correct height"
  {
    assert NatToString(1) == "1";
    WrongStartTail1();
    WrongStartHead1();
  }

  lemma NilEnd()
    ensures "1" + " is nil"
         == "1 is nil"
  {
  }

  lemma NilBundle()
    ensures " in bundle " + "1 is nil"
         == " in bundle 1 is nil"
  {
  }

  lemma NilBlock()
    ensures "0" + " in bundle 1 is nil"
         == "0 in bundle 1 is nil"
  {
  }

  lemma NilHead()
    ensures "block " + "0 in bundle 1 is nil"
         == "block 0 in bundle 1 is nil"
  {
  }

  lemma TextNil01()
    ensures Message(BlockNil(0, 1)) == "block 0 in bundle 1 is nil"
  {
    assert NatToString(0) == "0";
    assert NatToString(1) == "1";
    NilEnd();
    NilBundle();
    NilBlock();
    NilHead();
  }

  lemma GapEnd()
    ensures "1" + " is not sequential"
         == "1 is not sequential"
  {
  }

  lemma GapBundle()
    ensures " in bundle " + "1 is not sequential"
         == " in bundle 1 is not sequential"
  {
  }

  lemma GapBlock()
    ensures "1" + " in bundle 1 is not sequential"
         == "1 in bundle 1 is not sequential"
  {
  }

  lemma GapHead()
    ensures "block " + "1 in bundle 1 is not sequential"
         == "block 1 in bundle 1 is not sequential"
  {
  }

  lemma TextGap11()
    ensures Message(NotSequential(1, 1)) == "block 1 in bundle 1 is not sequential"
  {
    assert NatToString(1) == "1";
    GapEnd();
    GapBundle();
    GapBlock();
    GapHead();
  }

  // One lemma per row of the table: the exact verdict, and that the test's check passes.

  lemma Case0()
    ensures Validate(Cases()[0].bundles, Cases()[0].head) == Pass
    ensures CasePasses(Cases()[0])
  {
    ValidatePasses(Cases()[0].bundles, 1);
  }

  lemma Case1()
    ensures Validate(Cases()[1].bundles, Cases()[1].head) == Fail(BundlesEmpty)
    ensures CasePasses(Cases()[1])
  {
  }

  lemma Case2()
    ensures Validate(Cases()[2].bundles, Cases()[2].head) == Fail(BundleEmpty(0))
    ensures CasePasses(Cases()[2])
  {
    TextBundleEmpty0();
  }

  lemma Case3()
    ensures Validate(Cases()[3].bundles, Cases()[3].head) == Fail(BundleEmpty(1))
    ensures CasePasses(Cases()[3])
  {
    TextBundleEmpty1();
  }

  lemma Case4()
    ensures Validate(Cases()[4].bundles, Cases()[4].head) == Fail(FirstBlockWrongHeight(0))
    ensures CasePasses(Cases()[4])
  {
    ReportsWrongStart(Cases()[4].bundles, 0, 0);
    TextWrongStart0();
  }

  lemma Case5()
    ensures Validate(Cases()[5].bundles, Cases()[5].head) == Fail(BlockNil(0, 1))
    ensures CasePasses(Cases()[5])
  {
    TextNil01();
  }

  lemma Case6()
    ensures Validate(Cases()[6].bundles, Cases()[6].head) == Fail(NotSequential(1, 1))
    ensures CasePasses(Cases()[6])
  {
    TextGap11();
  }

  lemma Case7()
    ensures Validate(Cases()[7].bundles, Cases()[7].head) == Fail(FirstBlockWrongHeight(1))
    ensures CasePasses(Cases()[7])
  {
    TextWrongStart1();
  }

  /** Every case of the table passes. */
  lemma TablePasses()
    ensures forall k :: 0 <= k < |Cases()| ==> CasePasses(Cases()[k])
  {
    Case0(); Case1(); Case2(); Case3(); Case4(); Case5(); Case6(); Case7();
    forall k | 0 <= k < |Cases()|
      ensures CasePasses(Cases()[k])
    {
      assert k in {0, 1, 2, 3, 4, 5, 6, 7};
    }
  }
}
