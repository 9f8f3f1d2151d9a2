# Profiling log route: span matching and report building

This project models the core of `EProfileFileLogRoute`, a Yii log route that
turns profiling records into a report. Each profiling record is a log record
at the `profile` level whose message starts with `begin:<token>` or
`end:<token>`.

The route walks a batch of records with a stack of open blocks:

- A begin record pushes a block.
- An end record pops the top block. The end token must equal the popped
  block's token exactly; otherwise the route raises a mismatch error naming
  the end token.
- Blocks still open at the end of the batch are closed against one clock
  reading, `now`.

From the closed blocks the route builds one of two reports:

- **callstack**: one row per begin record, in begin order, each with its
  token, duration, nesting depth and category.
- **summary**: one row per grouping key, sorted by total time, largest first.
  The key is the token, or the category when `groupByToken` is off. Each row
  holds the number of calls and the shortest, longest and total duration.

Finally, the route object holds the report kind. The setter accepts only
`summary` and `callstack`.

Modules:

- `ProfileRecords` (`records.dfy`): the log record and the caseless prefix
  test that recognises begin and end records.
- `Folds` (`folds.dfy`): a generic left fold with its append and concat laws.
- `SpanMatcher` (`matcher.dfy`): the stack walk both reports share, as a
  specification.
  - `Step` handles one record, `Scan` a whole batch, and `Drain` closes the
    blocks left open.
  - A reference account of the batch, independent of the stack, is given by
    `BeginPositions` (where the begin records stand), `Level` (the nesting
    level), `BeginLevels` and `ClosesAt` (the first later record that brings
    the level back down).
  - Lemmas connect the walk to that account.
- `CallstackReport` (`callstack.dfy`): the imperative `CreateCallstack`,
  proved equal to the specification `Callstack`, and what that report holds.
- `SummaryReport` (`summary.dfy`): `Aggregate`, the imperative
  `CreateSummary`, proved equal to the specification `Summary`, and what that
  report holds.
  - The specification is stated twice: as the route's fold (`Tally`), and key
    by key (`Group`, `RowFor`, `ByKey`).
  - The lemmas prove the two agree.
- `ProfileRoute` (`route.dfy`): the route object with its two settings.

Behaviour modelled as written:

- `aggregateResult` returns five fields and drops the category. A summary
  row therefore has a category only while a single block has been folded
  into it (`Option`, `None` afterwards).
- Grouping by category keys a block on different categories depending on how
  it closed. A block closed by an end record uses the end record's category.
  A block closed at the end of the batch uses its begin record's category.
  `ClosedSpan.closer` records which category applies.
- An empty batch gives an empty summary. The source never initialises its
  table, which then reads as empty.

## Model

| member | source | states |
|---|---|---|
| ProfileRecords.Classify | EProfileFileLogRoute.php:161-171 | A record is ignored exactly when its level is not `profile` or its message starts with neither prefix. Otherwise it opens a block if it starts with `begin:` (tested first), or closes one if it starts with `end:`. Prefixes are compared without regard to ASCII case. The token is the rest of the message. |
| ProfileRecords.MarkRoundTrip | EProfileFileLogRoute.php:164-171 | A message built as `begin:` or `end:` followed by a token is classified as the begin or end of exactly that token. |
| ProfileRecords.CaselessPrefixAt | EProfileFileLogRoute.php:164 | A message starts with a prefix, ignoring case, exactly when it is at least as long and each of its first characters, lowered, is the prefix's character. |
| SpanMatcher.Step | EProfileFileLogRoute.php:160-188 | One record fails exactly when it is an end record and either the stack is empty or the top token differs. The failure carries the end token. An ignored record leaves the walk unchanged. |
| SpanMatcher.StepBegin | EProfileFileLogRoute.php:164-169 | A begin record pushes a block with its token, category, time and the next begin index, and increments the counter. |
| SpanMatcher.StepEnd | EProfileFileLogRoute.php:170-179 | An end record matching the top block pops it. It closes the block with duration end time minus begin time and depth equal to the stack size after the pop. |
| SpanMatcher.Scan | EProfileFileLogRoute.php:160-189 | When the walk over a batch succeeds, every begin record it counted is either still open or closed. |
| SpanMatcher.Drain | EProfileFileLogRoute.php:192-198 | Closing the remaining stack gives one block per open frame, each keyed on its begin record's category. |
| SpanMatcher.BeginPositionsExact | EProfileFileLogRoute.php:164-168 | The reference account lists exactly the positions of the begin records, in increasing order. |
| SpanMatcher.BeginLevelsAt | EProfileFileLogRoute.php:164-168 | The k-th begin level is the nesting level just before the k-th begin record. |
| SpanMatcher.PushConsistent | EProfileFileLogRoute.php:164-169 | Pushing a frame for a begin record keeps the stack invariant relative to the reference account. |
| SpanMatcher.PopConsistent | EProfileFileLogRoute.php:170-179 | Popping the top frame for a matching end record keeps the stack invariant. |
| SpanMatcher.MismatchIsFinal | EProfileFileLogRoute.php:181-187 | Once the walk fails, no later record changes the outcome. |
| SpanMatcher.MismatchAt | EProfileFileLogRoute.php:172-187 | An end record the walk cannot accept makes the whole batch fail with that record's token. |
| SpanMatcher.MismatchCause | EProfileFileLogRoute.php:172-187 | Every failure has such an end record as its cause. |
| SpanMatcher.MarkedOnly | EProfileFileLogRoute.php:161-170 | The walk over a batch equals the walk over its begin and end records alone. |
| SpanMatcher.IgnoredAnywhere | EProfileFileLogRoute.php:161-162 | Dropping an ignored record from anywhere in a batch does not change the walk. |
| SpanMatcher.UnmarkedConsistent | EProfileFileLogRoute.php:161-162 | An ignored record preserves the stack invariant. The invariant says stack frame j came from a begin record read at level j. It also says each closed block came from its begin record and an end record. Every begin index below the counter is open or closed exactly once. |
| SpanMatcher.BeginConsistent | EProfileFileLogRoute.php:164-169 | A begin record preserves the same invariant. |
| SpanMatcher.EndConsistent | EProfileFileLogRoute.php:170-179 | An accepted end record preserves the same invariant. |
| SpanMatcher.ScanConsistent | EProfileFileLogRoute.php:157-189 | After any batch without a mismatch, the walk satisfies that invariant relative to the reference account of the batch. |
| SpanMatcher.DrainAt | EProfileFileLogRoute.php:191-198 | The i-th block closed at the end is the i-th from the top of the stack. Its duration is `now` minus its begin time and its depth is the number of blocks beneath it. |
| SpanMatcher.DrainIndexed | EProfileFileLogRoute.php:191-198 | After the drain, every begin index is closed exactly once. |
| SpanMatcher.SpansComplete | EProfileFileLogRoute.php:156-198 | A batch without a mismatch yields exactly one closed block per begin record. Each block carries its begin record's token, category and nesting level. Its duration runs to the first later record that brings the level back down, which is an end record with the same token. When no record does, it runs to `now`. |
| SpanMatcher.NestedWalk | EProfileFileLogRoute.php:160-188 | For records begin a, begin b, end b, end a, the walk closes b at depth 1 and then a at depth 0, and leaves nothing open. |
| SpanMatcher.NestedScan | EProfileFileLogRoute.php:160-188 | The same walk holds for the concrete messages `begin:a`, `begin:b`, `end:b`, `end:a`. |
| CallstackReport.Callstack | EProfileFileLogRoute.php:156-201 | The report fails exactly when the walk fails. Otherwise it has at most one row per begin record. |
| CallstackReport.KeyedAt | EProfileFileLogRoute.php:174-179 | With distinct begin indices, the result table holds exactly one entry per closed block, under its begin index. |
| CallstackReport.KSort | EProfileFileLogRoute.php:199 | Sorting keeps at most n rows, all taken from the table. |
| CallstackReport.CreateCallstack | EProfileFileLogRoute.php:156-201 | Its result is the specification `Callstack`: the mismatch error, or the rows of all closed blocks keyed by begin index and sorted by key. |
| CallstackReport.CloseOpen | EProfileFileLogRoute.php:191-198 | Popping the remaining stack writes, for each block, the row the drain specifies. |
| CallstackReport.KSortAt | EProfileFileLogRoute.php:199 | Sorting a table whose keys are 0..n-1 gives n rows, row k holding entry k. |
| CallstackReport.CallstackRows | EProfileFileLogRoute.php:156-201 | Without a mismatch there is exactly one row per begin record, in begin order. Row k has the k-th begin record's token and category, and its depth is the level at which that record was read. Its duration runs to the first later record that brings the level back down, an end record with the same token. When no record does, it runs to `now`. |
| CallstackReport.ClosesOnce | EProfileFileLogRoute.php:170-179 | Only one record is the first to bring the level back down after a begin record. |
| CallstackReport.RowOfBeginUnique | EProfileFileLogRoute.php:156-201 | The row each begin record gets is uniquely determined by the batch and `now`. |
| CallstackReport.ForcedRows | EProfileFileLogRoute.php:191-198 | A block still open at the end is reported at its begin index with duration `now` minus begin time and depth equal to its stack height. |
| CallstackReport.IgnoredRecordsCallstack | EProfileFileLogRoute.php:161-162 | Dropping an ignored record from anywhere does not change the report. |
| CallstackReport.CallstackMismatch | EProfileFileLogRoute.php:170-187 | The report fails exactly when some end record is rejected by the walk over the records before it. The error carries that record's token. |
| CallstackReport.EmptyCallstack | EProfileFileLogRoute.php:156-201 | An empty batch yields no rows. |
| CallstackReport.UnterminatedCallstack | EProfileFileLogRoute.php:191-199 | A lone begin record yields one row of depth 0 and duration `now` minus its time. |
| CallstackReport.NestedCallstack | EProfileFileLogRoute.php:156-201 | Begin a, begin b, end b, end a yields a (depth 0) and then b (depth 1), with their end-minus-begin durations. |
| CallstackReport.CrossedCallstack | EProfileFileLogRoute.php:170-187 | Begin a, begin b, end a with a ≠ b fails naming a. |
| SummaryReport.Aggregate | EProfileFileLogRoute.php:285-300 | One more duration adds 1 to calls and delta to total. When min ≤ max on entry, min and max become min(min, delta) and max(max, delta). The category is dropped. |
| SummaryReport.GroupKeyOf | EProfileFileLogRoute.php:226-254 | A block's key is its token when grouping by token. Otherwise it is the category of the record that closed it, or its begin record's category if it was still open. |
| SummaryReport.Add | EProfileFileLogRoute.php:228-239 | Adding a duration under a key leaves the table with a row for the key. It grows by one row exactly when the key was new. Rows under other keys are untouched. |
| SummaryReport.Find | EProfileFileLogRoute.php:228 | Gives the position of the row with the key, or reports that no row has it. |
| SummaryReport.Insert | EProfileFileLogRoute.php:269-271 | Inserting a row into a list ordered by non-increasing total keeps it ordered and adds exactly that row. |
| SummaryReport.SortByTotal | EProfileFileLogRoute.php:269-271 | The result is a permutation of the table with non-increasing totals. |
| SummaryReport.Summary | EProfileFileLogRoute.php:212-274 | The summary fails exactly when the walk fails. Otherwise its totals are in non-increasing order. |
| SummaryReport.SummaryMismatch | EProfileFileLogRoute.php:222-247 | A batch whose walk fails yields the walk's error. |
| SummaryReport.IgnoredRecordsSummary | EProfileFileLogRoute.php:215-216 | Dropping an ignored record from anywhere does not change the summary. |
| SummaryReport.BeginTracks | EProfileFileLogRoute.php:218-221 | A begin record pushes its record with the token as message, and the table stays the tally of the closed blocks. |
| SummaryReport.EndTracks | EProfileFileLogRoute.php:222-240 | A matching end record pops the frame and adds end time minus begin time under the key. The key is the token, or the end record's category when grouping by category. The table stays the tally. |
| SummaryReport.EndRejects | EProfileFileLogRoute.php:222-247 | An end record meeting an empty stack or a different top token is one the walk rejects. |
| SummaryReport.ClosingTally | EProfileFileLogRoute.php:251-267 | Folding in the remaining frames gives the tally of the closed blocks followed by the drain, in the same order. |
| SummaryReport.CloseRemaining | EProfileFileLogRoute.php:251-267 | Popping the remaining stack adds `now` minus begin time under each frame's key. The key is the token, or the begin record's category. |
| SummaryReport.CreateSummary | EProfileFileLogRoute.php:212-274 | Its result is the specification `Summary`: the mismatch error, or the tally of all closed blocks sorted by total. |
| SummaryReport.SingleRow | EProfileFileLogRoute.php:232-238 | The row of a single block has 1 call, min = max = total = its duration, and its category. |
| SummaryReport.RowForGrows | EProfileFileLogRoute.php:228-230 | Adding a block to a non-empty group turns the group's row into the `Aggregate` of the old row with the block's duration. |
| SummaryReport.AddByKey | EProfileFileLogRoute.php:228-239 | Adding a block under its key keeps the table in step with the groups: one row per key in order of first occurrence, each the row its group deserves. |
| SummaryReport.TallyByKey | EProfileFileLogRoute.php:214-267 | The folded table has one row per key, in order of first occurrence. Each row has the key's call count, shortest, longest and total duration, and a category only while one block was folded in. |
| SummaryReport.SummaryByKey | EProfileFileLogRoute.php:212-274 | A summary without a mismatch has totals in non-increasing order and no key twice. Every row is the row its key's group deserves. A key has a row exactly when some closed block falls under it. |
| SummaryReport.CallsAdd | EProfileFileLogRoute.php:228-239 | Every duration added, to an existing or a new row, counts one more call. |
| SummaryReport.CallsSort | EProfileFileLogRoute.php:269-271 | Sorting keeps the total number of calls. |
| SummaryReport.SummaryCalls | EProfileFileLogRoute.php:212-274 | The calls of a summary without a mismatch add up to the number of begin records. |
| SummaryReport.EmptySummary | EProfileFileLogRoute.php:212-274 | An empty batch yields an empty summary. |
| SummaryReport.PairReport | EProfileFileLogRoute.php:228-239 | Two blocks under one key give one row with 2 calls, the smaller and larger duration, their sum, and no category. |
| SummaryReport.RepeatedSummary | EProfileFileLogRoute.php:212-274 | A token nested in itself, grouped by token, gives one row of two calls with the summed duration and no category. |
| ProfileRoute.ProfileFileLogRoute.constructor | EProfileFileLogRoute.php:43-48 | A new route builds the summary and groups by token. |
| ProfileRoute.ProfileFileLogRoute.GetReport | EProfileFileLogRoute.php:64-66 | Returns the report kind, which is always `summary` or `callstack`. |
| ProfileRoute.ProfileFileLogRoute.SetReport | EProfileFileLogRoute.php:74-84 | A value is accepted exactly when it is `summary` or `callstack`, and then becomes the report kind. Any other value is refused with that value, and the kind stays as it was. `groupByToken` is untouched. |
| ProfileRoute.SetTwice | EProfileFileLogRoute.php:74-84 | After two settings, the kind is the last accepted value, or the old kind if neither was accepted. |

## Left out

- `processLogs` (lines 103-144) is left out. It formats rows with `sprintf`, stamps them with the clock and hands them to the file route's own `processLogs`.
- `formatLogMessage` (lines 90-95) is left out. It formats dates and fractional seconds.
- `init` and the framework base classes are left out. `CFileLogRoute` is not part of this model.
- The text of the exception messages built by `Yii::t` is left out. A mismatch is the `Outcome.Mismatch` value carrying the token. A refused report kind is the `Status.Invalid` value carrying the offending value.
- The clock is not modelled. Each `microtime(true)` read (lines 191 and 251) becomes the parameter `now`.
- Timestamps and durations are `real`, not floating point. Rounding is not modelled.
- `groupByToken` is a parameter of `CreateSummary` rather than read from the object. The object keeps the field.
- SummaryReport.SortByTotal: it does not model `usort` with the comparator `$a[4]<$b[4]?1:0`. That comparator never returns -1, so the order it actually produces depends on PHP's sort algorithm. The model states the evidently intended order instead: a permutation with non-increasing totals. It promises nothing about the relative order of rows with equal totals.
- `create_function` was removed in PHP 8, so line 270 fails there. The comparator is modelled as its evident intent.
- `array_values` and PHP's array keys are not modelled. The summary table is a sequence of rows in first-insertion order, looked up by key.
- PHP's conversion of numeric-string keys to integers is not modelled. It does not change which keys are equal.
- ProfileRecords.Classify: case-insensitive matching covers ASCII letters only, as `strncasecmp` does. Locale-dependent case folding is not modelled.
- An empty remainder after `begin:` or `end:` is the empty token. PHP 7 and later return `''` from `substr` here; PHP 5 returns `false`.
- CallstackReport.CloseOpen and SummaryReport.CloseRemaining: the loops that drain the stack (lines 192-198 and 252-267) are separate methods, called where the source runs the loop.
- The callstack stack holds the walk's open blocks rather than the raw record arrays with slot 4 holding the begin index. The summary stack holds the records themselves, with the token as the message.
