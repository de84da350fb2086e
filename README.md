# Bundle validation and text indentation of hummingbird-client

The rollup client batches L2 blocks into bundles, and a round of bundles is
only submitted on top of the last anchored height `head` after
`ValidateBundles(bundles, head)` accepts it. This project models that
validator and the error each rejection carries. The validator's contract is
pinned by the table test `TestValidateBundles` in `rollup/rollup_test.go`. The
project also models the small text helper `IndentText` of `utils/misc.go`.

What is modelled:

- **`Rollup`** (`rollup.dfy`) gives a block as an optional height. A missing
  block is the Go nil pointer. A bundle is a sequence of blocks and a round is
  a sequence of bundles. Validation is the pure function `Validate`. It runs
  its checks in order and stops at the first violation:
  1. the round is empty;
  2. some bundle is empty;
  3. some block is nil;
  4. two adjacent blocks of a bundle are not consecutive;
  5. a bundle's first height is not `head + 1` (bundle 0) or the previous
     bundle's last height + 1.

  Each phase is a scan function whose contract names the first violation it
  finds. The `Reports*` lemmas characterize each error exactly: it is
  returned if and only if the named position is the first violation.
  `ValidateBundles` is the loop-based validator, proved to return what
  `Validate` returns.
- **`RollupRun`** (`rollup_run.dfy`) gives the meaning of acceptance. Laid end
  to end, the blocks of an accepted round are exactly the heights
  `head + 1, head + 2, …`. The validator is proved sound and complete for that
  reading.
- **`RollupErrors`** and **`Decimal`** render an error as the text the test
  compares, with indices printed in decimal as Go's `%d` does. Two different
  errors never share a text. So comparing texts, as the test does, is the
  same as comparing errors.
- **`RollupCases`** holds the eight rows of the test table as data. Each row
  has its exact verdict and text proved, and the test's pass condition holds
  for every row.
- **`Utils`** (`utils.dfy`) models `IndentText` as Go's
  `strings.ReplaceAll(text, "\n", "\n" + indent)`, with `ReplaceAll` written
  out.

## Model

| member | source | states |
|---|---|---|
| Rollup.CheckEmpty | rollup/rollup_test.go:69-98 | reports `BundleEmpty(i)` for the first bundle at or after `i` that has no blocks; reports nothing exactly when none of them is empty |
| Rollup.CheckNil | rollup/rollup_test.go:138-157 | reports `BlockNil(j, i)` for the first nil block in round order (bundle, then block); reports nothing exactly when every block is present |
| Rollup.CheckSequential | rollup/rollup_test.go:158-196 | reports `NotSequential(j, i)` for the first block `j` of bundle `i` whose height is not its predecessor's + 1; reports nothing exactly when every bundle is gapless |
| Rollup.CheckHeights | rollup/rollup_test.go:197-235 | reports `FirstBlockWrongHeight(i)` for the first bundle not starting at `head + 1` (bundle 0) or the previous bundle's last height + 1; reports nothing exactly when every bundle starts right |
| Rollup.ValidatePasses | rollup/rollup_test.go:22-60 | success exactly when the round is non-empty and every bundle is non-empty, nil-free, gapless and starts right |
| Rollup.ReportsEmptyRound | rollup/rollup_test.go:61-68 | "bundles are empty" exactly for the empty round, whatever the head |
| Rollup.ReportsEmptyBundle | rollup/rollup_test.go:69-98 | "bundle i is empty" if and only if bundle `i` is the first empty bundle |
| Rollup.ReportsNilBlock | rollup/rollup_test.go:138-157 | "block j in bundle i is nil" if and only if no bundle is empty and block `j` of bundle `i` is the first nil block in round order |
| Rollup.ReportsGap | rollup/rollup_test.go:158-196 | "block j in bundle i is not sequential" if and only if no bundle is empty, no block is nil, and block `j` of bundle `i` is the first in-bundle break in the height sequence |
| Rollup.ReportsWrongStart | rollup/rollup_test.go:99-137 | "first block in bundle i is not the correct height" if and only if all earlier checks pass and bundle `i` is the first bundle that does not start at `head + 1` or at its predecessor's last height + 1 |
| Rollup.ValidateBundles | rollup/rollup_test.go:239 | the loop-based validator returns exactly the verdict of `Validate` for every round and head |
| RollupRun.PrefixIsRun | rollup/rollup_test.go:197-235 | in a round passing every check, each prefix of bundles is one run of heights from `head + 1`, and its last bundle ends at `head` plus the prefix's block count |
| RollupRun.ValidateSound | rollup/rollup_test.go:22-60 | an accepted round is non-empty, has no empty bundle, and its blocks laid end to end are exactly the heights `head + 1, head + 2, …` |
| RollupRun.ValidateComplete | rollup/rollup_test.go:22-60 | every non-empty round of non-empty bundles whose blocks laid end to end are `head + 1, head + 2, …` is accepted |
| Decimal.NatToString | rollup/rollup_test.go:77 | the decimal text of an index is non-empty and all digits, starts with '0' only for zero, and is one digit exactly below ten |
| Decimal.ParseNatToString | rollup/rollup_test.go:77 | reading the decimal text of an index back gives the index |
| Decimal.NatToStringInjective | rollup/rollup_test.go:97 | different indices print differently |
| RollupErrors.MessageInjective | rollup/rollup_test.go:240 | two errors with the same text are the same error, so the test's text comparison identifies the error |
| RollupCases.TextBundleEmpty0 | rollup/rollup_test.go:77 | the empty-bundle error for bundle 0 reads exactly "bundle 0 is empty" |
| RollupCases.TextBundleEmpty1 | rollup/rollup_test.go:97 | the empty-bundle error for bundle 1 reads exactly "bundle 1 is empty" |
| RollupCases.TextWrongStart0 | rollup/rollup_test.go:136 | the wrong-start error for bundle 0 reads exactly "first block in bundle 0 is not the correct height" |
| RollupCases.TextWrongStart1 | rollup/rollup_test.go:234 | the wrong-start error for bundle 1 reads exactly "first block in bundle 1 is not the correct height" |
| RollupCases.TextNil01 | rollup/rollup_test.go:156 | the nil-block error for block 0 of bundle 1 reads exactly "block 0 in bundle 1 is nil" |
| RollupCases.TextGap11 | rollup/rollup_test.go:195 | the gap error for block 1 of bundle 1 reads exactly "block 1 in bundle 1 is not sequential" |
| RollupCases.Case0 | rollup/rollup_test.go:22-60 | bundles 2-4, 5-7, 8-10 on head 1 are accepted, and the row passes |
| RollupCases.Case1 | rollup/rollup_test.go:61-68 | the empty round on head 6 fails with the empty-round error, and the row passes |
| RollupCases.Case2 | rollup/rollup_test.go:69-78 | a single empty bundle on head 6 fails at bundle 0, and the row passes |
| RollupCases.Case3 | rollup/rollup_test.go:79-98 | bundle 2-4 followed by an empty bundle fails at bundle 1, and the row passes |
| RollupCases.Case4 | rollup/rollup_test.go:99-137 | the round 2-4, 5-7, 8-10 on head 0 fails with a wrong start at bundle 0, and the row passes |
| RollupCases.Case5 | rollup/rollup_test.go:138-157 | bundle 2-4 followed by a bundle holding one nil block fails at block 0 of bundle 1, and the row passes |
| RollupCases.Case6 | rollup/rollup_test.go:158-196 | bundles 2-4, 5 7 8, 9-11 fail at block 1 of bundle 1 (height 6 is skipped), and the row passes |
| RollupCases.Case7 | rollup/rollup_test.go:197-235 | bundles 2-4, 7-9, 12-14 fail with a wrong start at bundle 1, and the row passes |
| RollupCases.TablePasses | rollup/rollup_test.go:237-246 | every row of the table passes the test's check: a non-nil error has exactly the expected text, and no error is returned only when no text is expected |
| Utils.ReplaceEmptyPatternLength | utils/misc.go:17 | `ReplaceAll` with an empty pattern inserts the replacement once more than there are characters |
| Utils.IndentCons | utils/misc.go:17 | with the one-character pattern "\n", the text is rewritten character by character: a newline becomes newline + indent, and every other character stays as it is |
| Utils.IndentNoNewline | utils/misc.go:16-18 | a text without a newline comes back unchanged |
| Utils.IndentEmpty | utils/misc.go:16-18 | an empty indent leaves every text unchanged |
| Utils.IndentLength | utils/misc.go:17 | the output is as long as the text plus one indent per newline |
| Utils.IndentAppend | utils/misc.go:17 | indenting a concatenation is the concatenation of the indented parts |
| Utils.IndentPositions | utils/misc.go:17 | character `k` of the text appears at `k` plus the length of the indents inserted before it, so nothing precedes the first line and the order is kept; each newline is directly followed by the indent |
| Utils.UnindentIndent | utils/misc.go:17 | deleting the indent that follows each newline of the output gives back the original text |

## Left out

- The Go file that implements `ValidateBundles` is not part of this model. Its behaviour comes from the table test and from the documented algorithm. The model runs the checks as whole-round phases: empty round, then empty bundles, then nil blocks, then in-bundle gaps, then first heights. The test rows cannot tell this order apart from one pass that checks each bundle fully before the next one.
- Heights are unbounded naturals. The wrap-around of Go's `uint64` in `head + 1` or `last + 1` at 2^64 - 1 is not modelled.
- A nil `*node.Bundle` entry in the round is not modelled; a round holds bundle values, and only blocks can be nil.
- The reflection-based printer `MarshalText`, `MarshalTextIndex`, `formatValueText` and `formatIndividualValue` (utils/misc.go:20-95) is not modelled. It depends on Go's runtime type system and the hex encoding of the standard library.
- `NoErr` (utils/misc.go:10-14) only panics on a non-nil error and is not modelled.
- Configuration loading, the command-line helpers, DA submission with retries and gas escalation, L1 anchoring, the challenge defender and the orchestrator loops are not modelled. They are network, file and concurrency code outside this core. go-ethereum block and header construction is left out too.
- Go strings are byte strings. The model uses a sequence of characters, one per byte. For `IndentText` this changes nothing, because "\n" is a single byte. For `ReplaceAll` with an empty pattern, Go inserts the replacement after each UTF-8 sequence; the model inserts it after each character.
