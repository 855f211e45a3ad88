# cedar-validate-action: offset → line/column resolution, in Dafny

This project models the core of a GitHub Action that validates Cedar policy
files. The Cedar validator reports each error and warning with a raw pair of
character offsets into the policy text. The action turns every such pair into
1-based (line, column) positions, so that the findings can become source
annotations.

Two source files make up the core, and each has its own module:

- `line_column_from_index.dfy` (module `LineColumnFromIndex`) models
  `src/line-column-from-index.ts`.
  - The class `LineColumnFinder` holds the document and its line-start index.
    Its constructor builds the index with `BuildLineToIndex`: a `for` loop over
    the `'\n'`-split pieces that fills a preallocated array from a running sum.
    Its `Index` method rejects offsets below 0 and above the document length.
    Otherwise it calls `FindLowerIndexInRangeArray`, the lower-bound binary
    search with its `break`.
  - Both are proved against reference definitions written on the string
    itself, with no reference to `split`:
    - `LineStarts(s)`: 0, then one past every `'\n'`.
    - `Resolve(s, o)`: the line is the number of line starts at or before `o`;
      the column is the distance from the last of those starts; both count
      from 1.
  - The lemmas prove these facts about the reference definitions:
    - the shape of the index;
    - that `split` pieces join back to the document;
    - how a position is read off the search result;
    - the columns along one line;
    - monotonicity;
    - the worked examples of the test suite.
- `validate.dfy` (module `Validate`) models `src/validate.ts`.
  - `validatePolicySet` is a pure pass once the foreign validator has run, so
    the validator's output is an input datatype here (`RawValidateOutput`).
  - Errors are mapped first, then warnings.
  - An entry with no location keeps no location. An entry with a location gets
    both ends resolved.
  - Policy ids and messages are copied, and schema errors pass through as they
    are.
  - A failing query is a thrown exception in the source. Here it is the
    `Err` case of `Result`: it carries the first failing query, in evaluation
    order.

Offsets are `int`. The document is a `seq<char>`, and offsets count the same
unit as its characters.

The last line of the test document is `English words` with no leading space,
as written in `src/line-column-from-index.test.ts:8`. Only then is the
document 49 characters long, with offset 36 at the first character of line 5.

## Model

| member | source | states |
|---|---|---|
| `LineColumnFromIndex.SplitJoin` | src/line-column-from-index.ts:84 | joining the `'\n'`-split pieces with `'\n'` gives back the document |
| `LineColumnFromIndex.SplitPieces` | src/line-column-from-index.ts:84-85 | there is one piece more than there are `'\n'`s (so `""` gives one empty piece and a trailing `'\n'` gives a final empty piece), and no piece contains `'\n'` |
| `LineColumnFromIndex.LineStarts` | src/line-column-from-index.ts:83-93 | the line-start index is never empty and its first entry is 0 |
| `LineColumnFromIndex.LineStartsCount` | src/line-column-from-index.ts:84-85 | the index has one entry more than the document has `'\n'` characters |
| `LineColumnFromIndex.LineStartsWithin` | src/line-column-from-index.ts:88-91 | every line start, the last included, lies within `[0, length]` |
| `LineColumnFromIndex.LineStartsIncreasing` | src/line-column-from-index.ts:88-91 | the index is strictly increasing (every line adds its length + 1 >= 1), hence sorted |
| `LineColumnFromIndex.LineStartsAfterNewline` | src/line-column-from-index.ts:88-91 | every entry after the first is one past a `'\n'` |
| `LineColumnFromIndex.LineStartsComplete` | src/line-column-from-index.ts:88-91 | every `'\n'` is followed by a line start |
| `LineColumnFromIndex.LineStartsPrefix` | src/line-column-from-index.ts:83-93 | the line starts of a prefix `s[..o]` are a prefix of the index, and all later entries lie beyond `o` |
| `LineColumnFromIndex.SplitStarts` | src/line-column-from-index.ts:83-93 | the running sum of (piece length + 1) over the split pieces is exactly the line-start index, and it totals length + 1 |
| `LineColumnFromIndex.BuildLineToIndex` | src/line-column-from-index.ts:83-93 | the loop returns a fresh array whose contents are the line-start index of the string |
| `LineColumnFromIndex.LowerIndexUnique` | src/line-column-from-index.ts:40-50 | in a sorted array, at most one range `arr[i] <= value < arr[i+1]` (the last range open) holds a value |
| `LineColumnFromIndex.FindLowerIndexInRangeArray` | src/line-column-from-index.ts:52-74 | for a non-empty sorted array with `arr[0] <= value`, the result `i` has `arr[i] <= value`, and either `i` is the last index or `value < arr[i+1]`; a value at or past the last entry gives the last index; the loop keeps `arr[min] <= value < arr[max+1]` and ends because `max - min` decreases |
| `LineColumnFromIndex.Resolve` | src/line-column-from-index.ts:17-30 | a query succeeds exactly for `0 <= offset <= length` (the length itself included); a negative offset fails with `Negative`, a too-large one with `TooLarge` carrying the length |
| `LineColumnFromIndex.ResolveBounds` | src/line-column-from-index.ts:32-36 | a resolved position has `1 <= line <= (number of '\n') + 1` and `1 <= col <= offset + 1` |
| `LineColumnFromIndex.LowerIndexOfPrefix` | src/line-column-from-index.ts:32 | for an offset within the document, the range of the index holding it is the last line start at or before it |
| `LineColumnFromIndex.ResolveAtLowerIndex` | src/line-column-from-index.ts:32-36 | if range `i` of the index holds the offset, the position is `{line: i + 1, col: offset - start(i) + 1}` |
| `LineColumnFromIndex.LineExtent` | src/line-column-from-index.ts:88-91 | split piece `i` starts at entry `i` of the index and ends within the document, and the next entry is one past its `'\n'` |
| `LineColumnFromIndex.LineSpan` | src/line-column-from-index.ts:32-36 | for line `i`, which starts at `S` and has `L` characters, offset `S + k` resolves to `{line: i + 1, col: k + 1}` for every `0 <= k <= L` |
| `LineColumnFromIndex.ResolveAtStart` | src/line-column-from-index.ts:32-36 | in every document, offset 0 resolves to `{line: 1, col: 1}` |
| `LineColumnFromIndex.ResolveAtEnd` | src/line-column-from-index.ts:26-36 | offset == length is accepted and resolves onto the last line (`line` = number of lines), one column past its last character |
| `LineColumnFromIndex.ResolveMonotone` | src/line-column-from-index.ts:32-36 | for `a <= b` within the document, the position of `a` is at or before the position of `b` (line first, then column) |
| `LineColumnFromIndex.LineColumnFinder.constructor` | src/line-column-from-index.ts:9-15 | the finder keeps the string, and its array holds the string's line-start index |
| `LineColumnFromIndex.LineColumnFinder.Index` | src/line-column-from-index.ts:17-37 | `index(offset)` returns exactly `Resolve(str, offset)`: the same errors for out-of-range offsets, and otherwise the position read off the binary search |
| `LineColumnFromIndex.LineStartsAppendText` | src/line-column-from-index.ts:88-91 | text without `'\n'` appended to a document starts no new line |
| `LineColumnFromIndex.LineStartsAppendLine` | src/line-column-from-index.ts:88-91 | a line of text and its `'\n'` appended to a document start exactly one new line, just after the `'\n'` |
| `LineColumnFromIndex.TestDocumentLineStarts` | src/line-column-from-index.test.ts:3-9 | the five-line test document has 49 characters and line starts `[0, 8, 23, 29, 36]` |
| `LineColumnFromIndex.TestDocumentExamples` | src/line-column-from-index.test.ts:11-23 | in the test document, offset 0 gives `{1,1}`, 3 gives `{1,4}`, 36 gives `{5,1}`, 49 (the end) gives `{5,14}`, and -1 and 50 fail |
| `LineColumnFromIndex.EmptyDocumentExamples` | src/line-column-from-index.ts:53-55 | the empty document has line starts `[0]`; offset 0 gives `{1,1}` and offset 1 fails as too large |
| `Validate.MapAll` | src/validate.ts:35-59 | mapping succeeds exactly when every element does; the result then keeps count and order, element by element; otherwise the error is that of the first failing element, all elements before it having succeeded |
| `Validate.ErrorsResolve` | src/validate.ts:35-46 | each raw error resolves exactly when its location is absent or both ends are in range, and then it keeps its policy id and message, and its location is absent or resolved at both ends |
| `Validate.WarningsResolve` | src/validate.ts:48-59 | the same for each raw warning |
| `Validate.ValidatePolicySet` | src/validate.ts:31-66 | the pass succeeds exactly when every located offset is within the policy text; it then passes the schema errors through, keeps the number and order of errors and warnings, copies ids and messages, leaves a missing location missing, and resolves both ends of a present one |
| `Validate.ValidatePolicySetFailure` | src/validate.ts:35-59 | a failure is the first out-of-range query in evaluation order: errors before warnings, entries in order, a location's start before its end |
| `Validate.ResolvedRangesOrdered` | src/validate.ts:39-42 | a raw range with `start <= end` never resolves to an end position before its start position |
| `Validate.InvalidPolicyOffsets` | src/validate.test.ts:52-56 | in the 55-character one-line policy, offset 0 is `{1,1}` and offset 55 is `{1,56}` |
| `Validate.InvalidPolicyExample` | src/validate.test.ts:52-112 | a report whose three entries span `(0, 55)` becomes the expected output: every location runs from `{1,1}` to `{1,56}` |
| `Validate.ValidPolicyExample` | src/validate.test.ts:37-50 | an empty report stays empty |

## Left out

- The foreign Cedar validator (`validate` from `@common-fate/cedar-node`, src/validate.ts:32) is not modelled. Its output is a parameter of `ValidatePolicySet`, and the schema and the confusable-identifier flag it consumes do not appear.
- `ValidatePolicySet`: it queries `Resolve(policySet, ·)` rather than a `LineColumnFinder` object, because Dafny functions cannot call methods. `LineColumnFinder.Index` is proved to return exactly `Resolve`, so the results are the same. What the model does not show is that one finder is built and reused.
- `{ ...e, sourceLocation }` copies every field of the raw entry. The modelled raw entries have only a policy id, a message and a location.
- The `isNaN` check (src/line-column-from-index.ts:22-24) is left out: a Dafny `int` is never NaN. Non-integer JavaScript numbers are left out for the same reason.
- `FindLowerIndexInRangeArray`: requires `arr[0] <= value`, so a value below the first entry is not modelled. Its doc comment (src/line-column-from-index.ts:50) says the search returns -1 when nothing is found, but the code never returns -1: for such a value it returns 0. The only caller (src/line-column-from-index.ts:32) passes an offset >= 0 against an array whose first entry is 0, so the case never arises there.
- `FindLowerIndexInRangeArray`: `(max - min) >> 1` is modelled as `(max - min) / 2`. The two agree for the non-negative differences below 2^31 that occur here, since a document has fewer lines than that.
- Offsets count `char`s of the `seq<char>`. The source counts UTF-16 code units. The model does not deal with encodings, surrogate pairs or non-BMP characters.
- The text of the thrown error messages is not modelled. A failure is `Negative(offset)` or `TooLarge(offset, length)`.
- `src/main.ts` is not part of this model. It covers file discovery, file reading, JSON parsing of the schema, GitHub Actions annotations and console output.
