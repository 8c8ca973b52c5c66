# opportunity-api: a Dafny model of the bounding-box pipeline

opportunity-api is a small HTTP service. It turns real-user-monitoring
bundles of a web site into geometry. For every event that reached a given
checkpoint, it opens the page the event was recorded on in a
browser. It then measures the visible elements matched by the event's
source selector ("sources") and by a fixed list of form and button selectors
("targets"). The service cleans these boxes and hands them out in batches of
at most five, with a cursor the client posts back to resume.

This project models, in Dafny, the core of that service:

- **`loadBundles`** (index.js) — module `Bundles`: the rows pushed for
  the events whose checkpoint matches, in bundle and event order. This module
  also holds the case-insensitive mobile test on the user agent.
- **`getBoundingBoxes`** (utils/utils.js) — module `Extract`: visibility
  filter, selector derivation (`#id`, `.a.b`, `No Selector`), the `sources`
  and `targets` lists, and the error thrown for an invalid selector.
- **`removeZeros`** (utils/utils.js) — module `Sanitize`: the per-box
  "every value is 0" filter, over `Object.values` of each box.
- **`processBoundingBoxes` and the two routes** (index.js) — module
  `Batch`:
  - the per-row pipeline, with the mobile snapshot step;
  - the cursor loop with its quota of five;
  - JavaScript `slice` on a possibly negative cursor;
  - `parseInt(cursor) || 0`;
  - what chained calls cover.
- **`substituteParams`** (database/db_execute.js) — module `Substitute`:
  `@key\b` global replacement, key by key. Module `JsString` models only the
  JavaScript string built-ins the core uses.

State the source updates step by step is modelled with methods and loops:
`LoadBundles`, `CollectTargets`, `GetBoundingBoxes`, `RemoveZeros`,
`AttachSnapshots`, `ProcessBoundingBoxes`, `RunBatch`, `Next`, `Start` and
`SubstituteParams`. Each one is proved equal to a reference function. The
properties are then proved as lemmas about those functions.

The browser is an oracle, a function in a datatype field. Opening a row's
page gives either nothing, a navigation error, or a page. A page has a DOM
(`querySelectorAll` returns the matched elements, or `None` when the
selector is invalid and the call throws) and a screenshot behaviour per
selector.

Where the code and its documentation disagree, the model follows the code:

- A row whose page is found gives one graph even when both lists are empty.
  That graph is kept by `removeZeros` and counts against the quota: nothing
  drops empty graphs.
- An invalid source or target selector throws inside the page. The exception
  escapes `processBoundingBoxes` and fails the whole request, so the row does
  not get an empty group.
- `isVisible` computes an occlusion point but returns only "not hidden and
  not zero-sized". There is no five-point occlusion test.
- `openPage` rethrows navigation errors, so they fail the request too.
- There is no capture limiter, no intersection detection and no session
  store.
- `/next` takes the rows in the request body. `/start`
  also returns the combined rows as `raw`.
- Every extracted box carries its selector string. A string is never
  `=== 0`, so `removeZeros` never removes an extracted box
  (`Sanitize.NeverAllZero`, `Sanitize.KeepNonZeroKeepsAll`).
- A negative cursor survives `parseInt(cursor) || 0`. For a cursor from
  `-length` to `-1`, `slice(o, o + 1)` takes the row `o` places from the
  end, or nothing for `-1`; only then does the cursor climb to 0 and on (`Batch.MinusOneCursor`,
  `Batch.NegativeCursor`).
- A parameter value that itself contains `@other` is substituted again by a
  later key (`Substitute.EarlierTextIsRescanned`).

## Model

| member | source | states |
|---|---|---|
| Bundles.LoadBundles | index.js:21-38 | the nested loops push exactly the reference row list `BundleRows` |
| Bundles.EventRowsMembership | index.js:25-34 | a row is pushed for a bundle iff some event has checkpoint strictly equal to `ckpt` and the row is that bundle's url, agent and weight with the event's source |
| Bundles.BundleRowsMembership | index.js:23-36 | a row is in the result iff some event `j` of some bundle `i` matches the checkpoint and yields it |
| Bundles.EventRowsAppend | index.js:25-35 | event order is kept: the rows of concatenated event lists are the concatenated rows |
| Bundles.BundleRowsAppend | index.js:23-36 | bundle order is kept: the rows of concatenated bundle lists are the concatenated rows |
| Bundles.CombinedRowsFlatten | index.js:123-127 | loading day by day and flattening equals loading all the days' bundles as one list |
| Bundles.IsMobile | index.js:51 | a mobile row has an agent at least as long as "mobile" |
| Bundles.IsMobileIff | index.js:51 | a row is mobile iff its agent is present and its lower-cased text contains "mobile"; the truthiness test adds nothing |
| Bundles.MobileAnyCase | index.js:51 | an agent that contains "mobile" in any letter case is mobile |
| Bundles.IsMobileCaseInsensitive | index.js:51 | lower-casing the agent first does not change whether it is mobile |
| JsString.LowerChar | index.js:51 | an ASCII upper-case letter maps to the same letter in lower case; every other character is unchanged |
| JsString.ToLower | index.js:51 | `toLowerCase` keeps the length and lower-cases each character in place |
| JsString.ToLowerAppend | index.js:51 | lower-casing distributes over concatenation |
| JsString.ToLowerIdempotent | index.js:51 | lower-casing twice is lower-casing once |
| JsString.ContainsAt | index.js:51 | `includes` holds when the word occurs at some position |
| JsString.ContainsWitness | index.js:51 | when `includes` holds, there is a position where the word occurs |
| JsString.ContainsLower | index.js:51 | an occurrence survives lower-casing both strings |
| JsString.ReplaceChar | utils/utils.js:101 | replacing one character by another keeps the length and changes exactly the positions holding it |
| JsString.Split | utils/utils.js:101 | `split` gives at least one piece and no piece contains the separator |
| JsString.JoinPrefixHead | utils/utils.js:101 | text in front of the first piece is text in front of the joined result |
| JsString.JoinSplitReplaces | utils/utils.js:101 | `split(" ").join(".")` equals replacing every space by a dot |
| JsString.SplitJoinRoundTrip | utils/utils.js:101 | splitting on a character and joining with it again gives back the string |
| JsString.NatText | database/db_execute.js:64-65 | the decimal text of a natural number is non-empty and all digits; it starts with `0` only for 0, and then it is that single digit, so it never has a leading zero |
| JsString.IntText | database/db_execute.js:64-65 | the text of an integer is non-empty, starts with a minus sign iff the integer is negative, and is the minus sign and the digits of its absolute value when negative, the digits alone otherwise |
| JsString.NatTextRoundTrip | database/db_execute.js:64-65 | reading back the decimal digits of a natural number gives the number |
| Extract.IsVisible | utils/utils.js:72-84 | a visible element has non-zero offset width and height and is not `display: none`, `visibility: hidden` or `opacity: 0` |
| Extract.VisibleWhenShownAndSized | utils/utils.js:72-84 | conversely, an element that is shown and has non-zero offset size is visible |
| Extract.VisibilityIgnoresGeometry | utils/utils.js:60-85 | the viewport test and the centre-point obstruction test do not decide visibility: changing an element's rectangle, id or class list does not change it |
| Extract.DeriveSelector | utils/utils.js:98-102 | `#id` when there is an id; otherwise `.` and the class list with spaces turned into dots; otherwise `No Selector` |
| Extract.ClassSelectorHasNoSpace | utils/utils.js:100-101 | a class-derived selector starts with a dot and contains no space |
| Extract.VisibleBoxes | utils/utils.js:91-103 | filtering and mapping never yields more boxes than matched elements |
| Extract.VisibleBoxesMembership | utils/utils.js:91-103 | a box is in the list iff it is the box of some visible matched element |
| Extract.VisibleBoxesAppend | utils/utils.js:91-103 | match order is kept: the boxes of concatenated matches are the concatenated boxes |
| Extract.VisibleBoxesAround | utils/utils.js:114-127 | one element contributes its box, in its place, exactly when it is visible |
| Extract.SourceBoxes | utils/utils.js:87-107 | the source list fails iff the source selector is invalid, and then with that selector; a valid selector always succeeds with the visible matches' boxes, `[]` when nothing matches |
| Extract.TargetBoxes | utils/utils.js:109-130 | a failing target list names one of its own selectors, and that selector is invalid |
| Extract.TargetBoxesAppend | utils/utils.js:109-130 | querying two target lists one after the other concatenates their boxes; a failure in the first list is the result, then a failure in the second |
| Extract.TargetBoxesFailure | utils/utils.js:110-111 | the targets fail iff some target selector is invalid, and the error names the first invalid one |
| Extract.TargetDuplicates | utils/utils.js:109-130 | a visible element matched by two target selectors has its box twice: once among the first selector's boxes and once among the second's |
| Extract.TargetBoxesSingle | utils/utils.js:110-129 | a one-selector target list is that selector's visible boxes, or fails when it is invalid |
| Extract.CollectTargets | utils/utils.js:109-130 | the `forEach`/`push(...)` loop computes exactly the reference target list, including its first error |
| Extract.BoundingBoxes | utils/utils.js:56-134 | the graph exists iff both lists do; a source error comes first; when only the target lists fail, the error is the target lists' own error; the graph is the source list with the target list |
| Extract.GetBoundingBoxes | utils/utils.js:56-134 | the in-page routine computes exactly `BoundingBoxes` |
| Sanitize.Values | utils/utils.js:96-103 | `Object.values` of a box is its eight rectangle numbers in `toJSON` key order, then its selector string, then the snapshots object exactly when present |
| Sanitize.NeverAllZero | utils/utils.js:143-144 | no extracted box has every value `=== 0`, because its selector is a string |
| Sanitize.KeepNonZero | utils/utils.js:143 | the filter never adds boxes |
| Sanitize.KeepNonZeroSubsequence | utils/utils.js:143-144 | the filter keeps a subsequence of the boxes, in order |
| Sanitize.KeepNonZeroMembership | utils/utils.js:143-144 | a box is kept iff it was there and not all its values are zero |
| Sanitize.KeepNonZeroIdempotent | utils/utils.js:143-144 | filtering twice is filtering once |
| Sanitize.KeepNonZeroKeepsAll | utils/utils.js:143-144 | the filter keeps every extracted box |
| Sanitize.Clean | utils/utils.js:142-146 | the cleaned graph's source and target lists are subsequences of the originals |
| Sanitize.CleanEmpty | utils/utils.js:142-146 | an empty graph stays an empty graph and is not removed |
| Sanitize.RemoveZeros | utils/utils.js:136-151 | one single-graph group per input graph, in order, each holding that graph cleaned |
| Sanitize.FlattenRemoveZeros | index.js:95-96 | `cleaned.flat()` of `removeZeros`'s output is the list of cleaned graphs, one per input graph |
| Batch.SnapshotSources | index.js:67-86 | a snapshot pass that does not throw keeps every source box |
| Batch.SnapshotSourcesEffect | index.js:66-87 | each box keeps its rectangle and selector; it gains both data URIs exactly when both screenshots succeed, and is otherwise unchanged; the pass throws iff some `page.$` lookup throws, with the selector of the first box whose lookup throws |
| Batch.AttachSnapshots | index.js:67-86 | the snapshot loop computes exactly the reference pass |
| Batch.RowGraph | index.js:45-89 | a row gives nothing exactly when it has no page; a navigation error or an extraction error fails it with that error; a loaded non-mobile row whose extraction succeeds gives exactly the extracted graph; a loaded mobile row gives the extracted targets with the sources replaced by the snapshot pass's result, or fails with that pass's error |
| Batch.Collect | index.js:44-93 | a chunk gives at most one graph per row |
| Batch.ProcessChunk | index.js:41-97 | a chunk's result has at most one graph per row |
| Batch.OneRowChunk | index.js:44-96 | a one-row chunk fails with the row's error, gives `[]` for a row with no page, and otherwise gives exactly its cleaned graph, even an empty one |
| Batch.ProcessBoundingBoxes | index.js:41-97 | the per-row loop, `removeZeros` and `flat` compute exactly `ProcessChunk` |
| Batch.SliceIndex | index.js:175 | a `slice` argument becomes an index within the length |
| Batch.JsSlice | index.js:175 | `slice(o, o + 1)` holds at most one row; for in-range bounds it is the plain subsequence |
| Batch.JsSliceOne | index.js:175 | `slice(o, o + 1)` is row `o` in range, the row `o` places from the end for `-length <= o < -1`, and empty otherwise |
| Batch.Scan | index.js:174-181 | a call reports the row count as total, never moves the cursor back, stops at the quota or the end, ends within the rows, advances past any row it starts on, and returns at most five graphs |
| Batch.RunBatch | index.js:174-181 | the `while` loop computes exactly `Scan` from the start cursor |
| Batch.CursorOffset | index.js:170 | the offset is 0 exactly when the cursor parses to NaN or 0, and is the parsed integer otherwise |
| Batch.Next | index.js:169-187 | `/next` is the scan of the posted rows from `parseInt(cursor) \|\| 0` |
| Batch.Start | index.js:113-146 | `/start` is the scan of the combined rows from cursor 0, and returns the combined rows as `raw` |
| Batch.ChainSplit | index.js:174-181 | processing rows `lo..hi` one by one is processing `lo..mid` and then `mid..hi` |
| Batch.GatheredSplit | index.js:174-181 | the full scan of a row range splits at any middle row |
| Batch.ScanKeepsProcessed | index.js:177-179 | what was processed before a step stays at the front of the result |
| Batch.ScanStopsAtQuota | index.js:174-181 | a call that processes any row stops right after the first row that meets the quota: up to the row before its last, the quota was still open |
| Batch.ScanFailsBeforeQuota | index.js:174-181 | a call throws only at a row it reaches with the quota still open, after the earlier rows succeeded, and with that row's own error |
| Batch.ScanGathers | index.js:174-181 | one call returns exactly the results of the rows from its offset to its returned cursor; a call that throws meets the full scan's error |
| Batch.PagesCoverRows | index.js:169-187 | chaining calls by their cursors processes every remaining row exactly once, in order, and fails iff the full scan fails, with the same error |
| Batch.PagesEndAtTotal | index.js:183-187 | every reply reports the row count as total and holds at most five graphs; the last cursor equals the total |
| Batch.AllPagesFromZero | index.js:141-146 | the replies from cursor 0 together are the full scan of all rows |
| Batch.MinusOneCursor | index.js:170-175 | a cursor of -1 scans exactly as a cursor of 0 |
| Batch.NegativeCursor | index.js:170-175 | a cursor from `-length` to `-2` first processes the row that many places from the end, then goes on from the next cursor |
| Substitute.ValueText | database/db_execute.js:64 | a string value becomes `'value'`; an integer becomes exactly its decimal text `IntText(n)` (see `JsString.IntText`), signed iff negative, whose digits read back as the number (after the sign, as its absolute value, when negative) |
| Substitute.SubstituteParams | database/db_execute.js:61-68 | the loop over the entries computes exactly the reference substitution |
| Substitute.ReplaceWord | database/db_execute.js:65 | a string with no `@` is unchanged by any key |
| Substitute.ReplaceWordOtherAt | database/db_execute.js:65 | an `@` that does not begin `@key` followed by a boundary is copied, and text after it with no `@` is unchanged |
| Substitute.ReplaceWordSkipsPrefix | database/db_execute.js:65 | a prefix without `@` passes through the replacement untouched |
| Substitute.ReplaceWordHit | database/db_execute.js:65 | `@key` followed by a boundary is replaced by the value text, and scanning resumes after it |
| Substitute.MatchesAtBeforeAt | database/db_execute.js:65 | a match at the front of a text that goes on with `@` lies wholly before that `@` |
| Substitute.ReplaceWordSplitAtAt | database/db_execute.js:65 | the replacement of a text splits at any `@`: it is the replacement of the part before it followed by that of the rest |
| Substitute.EveryOccurrence | database/db_execute.js:65 | the global flag replaces every `@key` that ends at a word boundary, wherever it stands and whatever text precedes it |
| Substitute.ReplaceWordMissesLongerName | database/db_execute.js:65 | `@key` followed by another word character (a longer name) is not replaced |
| Substitute.SubstituteNoParams | database/db_execute.js:61-62 | with no parameters the query is returned unchanged |
| Substitute.SubstituteNoAt | database/db_execute.js:61-68 | a query with no `@` is unchanged by any parameters |
| Substitute.SubstituteInOrder | database/db_execute.js:63-66 | adding one more entry applies its replacement to the output of the earlier ones |
| Substitute.SubstituteOne | database/db_execute.js:63-66 | one entry is one global replacement of `@key\b` by the value's text |
| Substitute.LongerNameUntouched | database/db_execute.js:65 | `@key` is replaced while `@keyX...` in the same query is left as it was |
| Substitute.TwoPlaceholders | database/db_execute.js:61-68 | with entries for keys `a` and `b`, the query `@a = @b` becomes `'x' = 'y'`: key `a` leaves `@b` for key `b` |
| Substitute.EarlierTextIsRescanned | database/db_execute.js:63-66 | a string value holding `@b` is itself replaced when key `b` comes later |

## Left out

- HTTP plumbing is not modelled: express routing, the 400 replies for a
  missing `domain` or `data`, the 500 reply built from an escaping error,
  CORS, JSON bodies and the listener. An escaping error is modelled as a
  `Failure` result.
- The date range walk and day formatting of `/start` (`new Date`,
  `toISOString`) are not modelled. The days' bundle lists are a parameter.
- `fetch` of the bundle endpoint and `resp.json()` are not modelled. The
  decoded `rumBundles` are a parameter.
- Puppeteer is an oracle. Launching, `newPage`, `goto`, `setViewport`,
  `setUserAgent`, `scrollIntoView`, `page.close` and the browser singleton
  are not modelled. `openPage` launching its own visible (`headless: false`)
  browser per row, ignoring the one passed in, is not modelled either. The oracle gives the page each row reaches, already in
  the mobile viewport when the row is mobile.
- Floating-point geometry and the window size are not modelled. Rectangle
  fields are integers, and the viewport test, which `isVisible` computes but
  does not use, is left out. The centre-point `elementFromPoint` probe is
  left out for the same reason.
- `console` logging is not modelled.
- `if (!bbData) continue` is not modelled: `getBoundingBoxes` always
  returns an object, so the branch is never taken.
- The `NoPage` outcome models `if (!result) continue`. That branch is just
  as unreachable: `openPage` returns `{ browser, page }` or throws. It is
  kept so the skip is modelled as written.
- Matched elements are HTML elements. On an SVG element, `className` is an
  object rather than a string, so the class branch of the selector throws.
  `offsetWidth` is undefined there too, so the zero-size test never holds.
  Neither behaviour is modelled.
- JSON `null` is not modelled; `None` is a missing key (`undefined`). With
  `===`, an event whose checkpoint is `null` does not match a missing
  `checkpoint` parameter, and a `null` source reaches the page as `"null"`.
- The screenshot oracle is keyed by selector text. Two source boxes with the
  same selector therefore meet the same screenshot outcome. The page state
  between shots is not modelled.
- `loadQuery` and the `DBExecutor` class (BigQuery client, `execute_query`)
  are not modelled. They are I/O around `substituteParams`.
- Substitute.ReplaceWord: does not model `$`-patterns (`$&`, `$1`, `$$`) in
  the replacement text, or regular-expression metacharacters in a key. Keys
  are taken literally.
- Substitute.SubstituteParams: parameters are a sequence in
  `Object.entries` order. The integer-like-keys-first ordering of JavaScript
  objects is not modelled.
- Substitute.ValueText: only strings and integers are modelled as values.
  Floating-point numbers, booleans, `null` and objects (formatted by
  `String(value)`) are not.
- JsString.IntText: does not model how JavaScript prints large numbers. It
  writes every integer in plain digits, but `String(value)` switches to
  exponent form from `1e21` up (`"1e+21"`). Integers above 2^53 also lose
  precision in a JavaScript number.
- Lower-casing covers ASCII letters only. Unicode case mapping is not
  modelled.
- Batch.Scan: the cursor is an unbounded integer, while `offset += 1`
  (index.js:180) is floating-point arithmetic. From about -2^54 down,
  adding 1 no longer changes a double, so a posted cursor such as
  `"-20000000000000000"` would leave the source's loop stuck on an empty
  slice; the model's cursor instead climbs to 0 and the call returns.
  The climb through empty slices below `-length` is modelled with exact
  integers only.
- Batch.CursorOffset: takes the cursor as an already-parsed optional
  integer. `parseInt`'s reading of strings, such as leading digits or
  `"0x"`, is not modelled, and `None` stands for NaN.
- JsString.Split: only single-character separators are modelled, which is
  what `split(" ")` uses.
