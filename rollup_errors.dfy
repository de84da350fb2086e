/**
 * The text of each validation error, as `err.Error()` returns it. Indices are
 * printed in decimal (Go's `%d`).
 */
module RollupErrors {
  import opened Wrappers
  import opened Rollup
  import opened Decimal

  /** The message of a validation error. */
  function Message(e: ValidationError): string {
    match e
    case BundlesEmpty => "bundles are empty"
    case BundleEmpty(i) => "bundle " + (NatToString(i) + " is empty")
    case BlockNil(j, i) =>
      "block " + (NatToString(j) + (" in bundle " + (NatToString(i) + " is nil")))
    case NotSequential(j, i) =>
      "block " + (NatToString(j) + (" in bundle " + (NatToString(i) + " is not sequential")))
    case FirstBlockWrongHeight(i) =>
      "first block in bundle " + (NatToString(i) + " is not the correct height")
  }

  /** The error string a test compares: empty for a nil error. */
  function ErrorText(o: Outcome<ValidationError>): string {
    match o
    case Pass => ""
    case Fail(e) => Message(e)
  }

  lemma DropPrefix(p: string, a: string, b: string)
    requires p + a == p + b
    ensures a == b
  {
    assert a == (p + a)[|p|..];
    assert b == (p + b)[|p|..];
  }

  /** Characters that tell the five message shapes apart, whatever indices they carry. */
  lemma MessageShape(e: ValidationError)
    ensures |Message(e)| > 6
    ensures Message(e)[1] == (if e.BundlesEmpty? || e.BundleEmpty? then 'u'
                              else if e.FirstBlockWrongHeight? then 'i' else 'l')
    ensures (Message(e)[6] == 's') == e.BundlesEmpty?
  {
  }

  /**
   * Different errors have different messages, so comparing `err.Error()` with
   * an expected string pins down the error kind and every index it carries.
   */
  lemma MessageInjective(e1: ValidationError, e2: ValidationError)
    requires Message(e1) == Message(e2)
    ensures e1 == e2
  {
    MessageShape(e1);
    MessageShape(e2);
    match e1
    case BundlesEmpty =>
    case BundleEmpty(i1) =>
      var i2 := e2.bundle;
      DropPrefix("bundle ", NatToString(i1) + " is empty", NatToString(i2) + " is empty");
      SplitAtDigits(NatToString(i1), " is empty", NatToString(i2), " is empty");
      NatToStringInjective(i1, i2);
    case BlockNil(j1, i1) =>
      var end2 := if e2.BlockNil? then " is nil" else " is not sequential";
      NilMessageSplit(j1, i1, e2.block, e2.bundle, " is nil", end2);
    case NotSequential(j1, i1) =>
      var end2 := if e2.BlockNil? then " is nil" else " is not sequential";
      NilMessageSplit(j1, i1, e2.block, e2.bundle, " is not sequential", end2);
    case FirstBlockWrongHeight(i1) =>
      var i2 := e2.bundle;
      var tail := " is not the correct height";
      DropPrefix("first block in bundle ", NatToString(i1) + tail, NatToString(i2) + tail);
      SplitAtDigits(NatToString(i1), tail, NatToString(i2), tail);
      NatToStringInjective(i1, i2);
  }

  /** The two "block j in bundle i ..." messages: equal text means equal indices and equal endings. */
  lemma NilMessageSplit(j1: nat, i1: nat, j2: nat, i2: nat, end1: string, end2: string)
    requires end1 != [] && end1[0] == ' ' && end2 != [] && end2[0] == ' '
    requires "block " + (NatToString(j1) + (" in bundle " + (NatToString(i1) + end1)))
          == "block " + (NatToString(j2) + (" in bundle " + (NatToString(i2) + end2)))
    ensures j1 == j2 && i1 == i2 && end1 == end2
  {
    var dj1, dj2, di1, di2 := NatToString(j1), NatToString(j2), NatToString(i1), NatToString(i2);
    var rest1 := " in bundle " + (di1 + end1);
    var rest2 := " in bundle " + (di2 + end2);
    DropPrefix("block ", dj1 + rest1, dj2 + rest2);
    assert rest1[0] == ' ' && rest2[0] == ' ';
    SplitAtDigits(dj1, rest1, dj2, rest2);
    NatToStringInjective(j1, j2);
    DropPrefix(" in bundle ", di1 + end1, di2 + end2);
    SplitAtDigits(di1, end1, di2, end2);
    NatToStringInjective(i1, i2);
  }
}
