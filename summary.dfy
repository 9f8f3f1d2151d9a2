/** The summary report: the closed blocks folded into one row per grouping
    key (the token, or the category), with the number of calls and the
    shortest, longest and total duration, the rows sorted by total. */
module SummaryReport {
  import opened ProfileRecords
  import opened SpanMatcher
  import opened Folds

  /** One row of the report: the grouping key, the number of calls, the
      shortest, longest and total duration, and a category. The category is
      that of the first block folded in, and aggregating a second block into
      the row drops it. */
  datatype SummaryRow = SummaryRow(token: string, calls: nat, min: real, max: real, total: real, category: Option<string>)

  function Min(a: real, b: real): real
  {
    if a <= b then a else b
  }

  function Max(a: real, b: real): real
  {
    if a <= b then b else a
  }

  /** Folds one more duration into a row. */
  function Aggregate(row: SummaryRow, delta: real): (r: SummaryRow)
    ensures r.token == row.token && r.calls == row.calls + 1 && r.total == row.total + delta
    ensures row.min <= row.max ==> r.min == Min(row.min, delta) && r.max == Max(row.max, delta) && r.min <= r.max
    ensures r.category == None
  {
    var min := if delta < row.min then delta else row.min;
    var max := if delta < row.min then row.max else if delta > row.max then delta else row.max;
    SummaryRow(row.token, row.calls + 1, min, max, row.total + delta, None)
  }

  /** The key a closed block is grouped under: its token, or the category of
      the record that closed it. */
  function GroupKey(c: ClosedSpan, byToken: bool): string
  {
    if byToken then c.token else c.closer
  }


  /** Grouped by token, a block's key is its token. Grouped by category, a
      block closed by an end record is keyed on that end record's category,
      and a block closed at the end of the batch on its begin record's. */
  lemma GroupKeyOf(c: ClosedSpan, p: seq<Record>, bp: seq<nat>, lv: seq<int>, now: real)
    ensures GroupKey(c, true) == c.token
    ensures EndedBy(c, p, bp, lv) ==>
              exists q: nat :: ClosesAt(p, bp[c.index], q, c.depth) && GroupKey(c, false) == p[q].category
    ensures ForcedAt(c, now, p, bp, lv) ==> GroupKey(c, false) == p[bp[c.index]].category
  {
  }

  /** The position of the row with the given key, or |table| when there is none. */
  function Find(table: seq<SummaryRow>, key: string): (i: nat)
    ensures i <= |table|
    ensures i < |table| ==> table[i].token == key
    ensures i == |table| ==> forall j :: 0 <= j < |table| ==> table[j].token != key
  {
    if table == [] then 0
    else if table[0].token == key then 0
    else 1 + Find(table[1..], key)
  }

  /** Adds one duration under a key: aggregated into the row of that key
      when there is one, as a new last row carrying the category otherwise. */
  function Add(table: seq<SummaryRow>, key: string, delta: real, category: string): (r: seq<SummaryRow>)
    ensures |r| == if Find(table, key) < |table| then |table| else |table| + 1
    ensures Find(r, key) < |r|
    ensures forall j :: 0 <= j < |table| ==> r[j].token == table[j].token
    ensures forall j :: 0 <= j < |table| && table[j].token != key ==> r[j] == table[j]
  {
    var i := Find(table, key);
    if i < |table| then
      var r := table[i := Aggregate(table[i], delta)];
      assert r[i].token == key;
      r
    else
      var r := table + [SummaryRow(key, 1, delta, delta, delta, Some(category))];
      assert r[|table|].token == key;
      r
  }

  /** Folds one closed block into the table under its key; the category of a
      new row is that of the block's begin record. */
  function Fold(table: seq<SummaryRow>, c: ClosedSpan, byToken: bool): seq<SummaryRow>
  {
    Add(table, GroupKey(c, byToken), c.delta, c.category)
  }

  /** The fold step for one way of grouping. */
  function Folder(byToken: bool): (seq<SummaryRow>, ClosedSpan) -> seq<SummaryRow>
  {
    (table, c) => Fold(table, c, byToken)
  }

  /** Applying the fold step folds the block in. */
  lemma FolderApply(table: seq<SummaryRow>, c: ClosedSpan, byToken: bool)
    ensures Folder(byToken)(table, c) == Add(table, GroupKey(c, byToken), c.delta, c.category)
  { }

  /** The table after folding in the closed blocks in order. */
  function Tally(spans: seq<ClosedSpan>, byToken: bool): seq<SummaryRow>
  {
    FoldLeft(Folder(byToken), [], spans)
  }

  /** Rows ordered from the largest total to the smallest. */
  predicate NonIncreasing(rows: seq<SummaryRow>)
  {
    forall i, j :: 0 <= i < j < |rows| ==> rows[i].total >= rows[j].total
  }

  /** Places x after every row whose total is at least its own. */
  function Insert(sorted: seq<SummaryRow>, x: SummaryRow): (r: seq<SummaryRow>)
    requires NonIncreasing(sorted)
    ensures multiset(r) == multiset(sorted) + multiset{x}
    ensures NonIncreasing(r)
    ensures r[0] == x || (sorted != [] && r[0] == sorted[0])
  {
    if sorted == [] then [x]
    else if sorted[0].total >= x.total then
      var tail := sorted[1..];
      assert sorted == [sorted[0]] + tail;
      var rest := Insert(tail, x);
      InsertUnder(sorted[0], rest);
      [sorted[0]] + rest
    else
      InsertUnder(x, sorted);
      [x] + sorted
  }

  /** A row whose total is at least the first total of a non-increasing
      sequence can be placed in front of it. */
  lemma InsertUnder(head: SummaryRow, rows: seq<SummaryRow>)
    requires NonIncreasing(rows)
    requires rows != [] ==> rows[0].total <= head.total
    ensures NonIncreasing([head] + rows)
  {
    var r := [head] + rows;
    forall i, j | 0 <= i < j < |r|
      ensures r[i].total >= r[j].total
    {
      assert r[j] == rows[j - 1];
      if i > 0 {
        assert r[i] == rows[i - 1];
      }
    }
  }

  /** The table sorted by total, largest first. Nothing is promised about the
      relative order of rows with equal totals. */
  function SortByTotal(rows: seq<SummaryRow>): (r: seq<SummaryRow>)
    ensures multiset(r) == multiset(rows)
    ensures NonIncreasing(r)
  {
    if rows == [] then []
    else
      assert rows == rows[..|rows| - 1] + [rows[|rows| - 1]];
      Insert(SortByTotal(rows[..|rows| - 1]), rows[|rows| - 1])
  }

  /** The report a batch yields, given the time at which it is built. */
  function Summary(logs: seq<Record>, byToken: bool, now: real): (o: Outcome<seq<SummaryRow>>)
    ensures o.Mismatch? <==> Scan(logs).Mismatch?
    ensures o.Ok? ==> NonIncreasing(o.value)
  {
    match Spans(logs, now)
    case Mismatch(t) => Mismatch(t)
    case Ok(spans) => Ok(SortByTotal(Tally(spans, byToken)))
  }

  /** A record that the walk ignores may be dropped from anywhere in the batch
      without changing the report. */
  lemma {:induction false} IgnoredRecordsSummary(p: seq<Record>, r: Record, s: seq<Record>, byToken: bool, now: real)
    requires Classify(r).Unmarked?
    ensures Summary(p + [r] + s, byToken, now) == Summary(p + s, byToken, now)
  {
    IgnoredAnywhere(p, r, s);
  }

  // ---------------------------------------------------------------------
  // The report as the route builds it

  /** A batch whose walk fails yields the walk's error. */
  lemma SummaryMismatch(logs: seq<Record>, byToken: bool, now: real)
    requires Scan(logs).Mismatch?
    ensures Summary(logs, byToken, now) == Mismatch(Scan(logs).token)
  {
  }

  /** The route's stack holds the begin records themselves, with the message
      replaced by the token: frame j of the stack is open block j of the walk. */
  ghost predicate Framed(stack: seq<Record>, open: seq<OpenSpan>)
  {
    && |stack| == |open|
    && forall j :: 0 <= j < |stack| ==> stack[j] == Record(open[j].token, ProfileLevel, open[j].category, open[j].start)
  }

  /** Folding one more block into the table is one more step of the tally. */
  lemma TallyAppend(spans: seq<ClosedSpan>, c: ClosedSpan, byToken: bool)
    ensures Tally(spans + [c], byToken) == Add(Tally(spans, byToken), GroupKey(c, byToken), c.delta, c.category)
  {
    FoldLeftAppend(Folder(byToken), [], spans, c);
  }

  /** The route's state follows the walk: its stack holds the frames of the
      walk's open blocks and its table is the tally of the walk's closed ones. */
  ghost predicate Tracks(w: Walk, stack: seq<Record>, results: seq<SummaryRow>, byToken: bool)
  {
    Framed(stack, w.stack) && results == Tally(w.closed, byToken)
  }

  /** A begin record pushes its frame and closes nothing. */
  lemma BeginTracks(w: Walk, log: Record, stack: seq<Record>, results: seq<SummaryRow>, byToken: bool)
    requires Tracks(w, stack, results, byToken)
    requires log.level == ProfileLevel && CaselessPrefix(BeginPrefix, log.message)
    ensures Step(w, log).Ok?
    ensures Tracks(Step(w, log).value, stack + [Record(log.message[|BeginPrefix|..], log.level, log.category, log.time)], results, byToken)
  {
    assert Step(w, log).value.stack == w.stack + [OpenSpan(log.message[|BeginPrefix|..], log.category, log.time, w.n)];
  }

  /** An end record whose token is that of the top frame pops the frame and
      adds the time since its begin record under the key: the token, or the
      end record's category when grouping by category. */
  lemma EndTracks(w: Walk, log: Record, stack: seq<Record>, results: seq<SummaryRow>, byToken: bool,
                  last: Record, key: string, delta: real)
    requires Tracks(w, stack, results, byToken)
    requires log.level == ProfileLevel && !CaselessPrefix(BeginPrefix, log.message) && CaselessPrefix(EndPrefix, log.message)
    requires stack != [] && last == stack[|stack| - 1] && last.message == log.message[|EndPrefix|..]
    requires key == (if byToken then log.message[|EndPrefix|..] else log.category) && delta == log.time - last.time
    ensures Step(w, log).Ok?
    ensures Tracks(Step(w, log).value, stack[..|stack| - 1], Add(results, key, delta, last.category), byToken)
  {
    var top := w.stack[|w.stack| - 1];
    assert last == Record(top.token, ProfileLevel, top.category, top.start);
    var c := ClosedSpan(top.token, log.time - top.start, |w.stack| - 1, top.category, log.category, top.index);
    assert Step(w, log) == Ok(Walk(w.stack[..|w.stack| - 1], w.closed + [c], w.n));
    assert GroupKey(c, byToken) == key && c.delta == delta && c.category == last.category;
    TallyAppend(w.closed, c, byToken);
    assert Framed(stack[..|stack| - 1], w.stack[..|w.stack| - 1]);
  }

  /** An end record whose token is not that of the top frame, or that meets
      an empty stack, is one the walk rejects. */
  lemma EndRejects(w: Walk, log: Record, stack: seq<Record>, results: seq<SummaryRow>, byToken: bool)
    requires Tracks(w, stack, results, byToken)
    requires log.level == ProfileLevel && !CaselessPrefix(BeginPrefix, log.message) && CaselessPrefix(EndPrefix, log.message)
    requires !(stack != [] && stack[|stack| - 1].message == log.message[|EndPrefix|..])
    ensures Rejects(w, log)
  {
    if w.stack != [] {
      assert stack[|stack| - 1].message == w.stack[|w.stack| - 1].token;
    }
  }

  /** The table once the blocks still open are popped, top first, each
      folded in as closed at now, under its own category when grouping by
      category since no end record names one. */
  function Closing(table: seq<SummaryRow>, open: seq<OpenSpan>, now: real, byToken: bool): seq<SummaryRow>
  {
    FoldLeft(Folder(byToken), table, Drain(open, now))
  }

  /** Popping the open blocks folds exactly the blocks the walk closes
      against now into the tally, in the same order. */
  lemma ClosingTally(closed: seq<ClosedSpan>, open: seq<OpenSpan>, now: real, byToken: bool)
    ensures Closing(Tally(closed, byToken), open, now, byToken) == Tally(closed + Drain(open, now), byToken)
  {
    FoldLeftConcat(Folder(byToken), [], closed, Drain(open, now));
  }

  /** Once the walk has read the whole batch, the report is the tally closed
      against now and sorted. */
  lemma SummaryOk(logs: seq<Record>, w: Walk, stack: seq<Record>, results: seq<SummaryRow>, byToken: bool, now: real)
    requires Scan(logs) == Ok(w) && Tracks(w, stack, results, byToken)
    ensures Summary(logs, byToken, now) == Ok(SortByTotal(Closing(results, w.stack, now, byToken)))
  {
    ClosingTally(w.closed, w.stack, now, byToken);
  }

  /** Popping the frame of open block `|open| - 1 - k` as the route does,
      once the first `k` blocks the walk closes against now are folded in,
      folds in the first `k + 1`. */
  lemma PopFolds(results: seq<SummaryRow>, table: seq<SummaryRow>, drained: seq<ClosedSpan>, open: seq<OpenSpan>, now: real, byToken: bool,
                 k: nat, frame: Record, token: string, delta: real)
    requires drained == Drain(open, now) && k < |open|
    requires table == FoldLeft(Folder(byToken), results, drained[..k])
    requires var o := open[|open| - 1 - k]; frame == Record(o.token, ProfileLevel, o.category, o.start)
    requires token == (if byToken then frame.message else frame.category) && delta == now - frame.time
    ensures Add(table, token, delta, frame.category) == FoldLeft(Folder(byToken), results, drained[..k + 1])
  {
    var c := drained[k];
    DrainAt(open, now, k);
    assert GroupKey(c, byToken) == token && c.delta == delta && c.category == frame.category;
    FolderApply(table, c, byToken);
    FoldLeftPrefix(Folder(byToken), results, drained, k, table);
  }

  /** Pops the frames still on the stack at the end of the batch, adding for
      each the time from its begin record to now under its key. */
  method CloseRemaining(stack: seq<Record>, results: seq<SummaryRow>, groupByToken: bool, now: real, ghost open: seq<OpenSpan>)
    returns (table: seq<SummaryRow>)
    requires Framed(stack, open)
    ensures table == Closing(results, open, now, groupByToken)
  {
    var rest := stack;
    ghost var drained := Drain(open, now);
    table := results;
    while rest != []
      invariant |rest| <= |stack| && rest == stack[..|rest|]
      invariant table == FoldLeft(Folder(groupByToken), results, drained[..|stack| - |rest|])
      decreases |rest|
    {
      var last := rest[|rest| - 1];
      ghost var k := |stack| - |rest|;
      assert last == stack[|stack| - 1 - k];
      rest := rest[..|rest| - 1];
      var delta := now - last.time;
      var token := if groupByToken then last.message else last.category;
      PopFolds(results, table, drained, open, now, groupByToken, k, last, token, delta);
      table := Add(table, token, delta, last.category);
      assert |stack| - |rest| == k + 1;
    }
    assert drained[..|stack|] == drained;
  }

  /** Builds the summary of a batch in one pass over it, then folds in the
      blocks still open against the time now, then sorts by total. */
  method CreateSummary(logs: seq<Record>, groupByToken: bool, now: real) returns (report: Outcome<seq<SummaryRow>>)
    ensures report == Summary(logs, groupByToken, now)
  {
    var stack: seq<Record> := [];
    var results: seq<SummaryRow> := [];
    ghost var w := Start;
    for i := 0 to |logs|
      invariant Scan(logs[..i]) == Ok(w)
      invariant Tracks(w, stack, results, groupByToken)
    {
      var log := logs[i];
      assert logs[..i + 1] == logs[..i] + [log];
      ScanExtend(logs[..i], w, log, logs[..i + 1]);
      if log.level != ProfileLevel {
        continue;
      }
      var message := log.message;
      if CaselessPrefix(BeginPrefix, message) {
        BeginTracks(w, log, stack, results, groupByToken);
        stack := stack + [Record(message[|BeginPrefix|..], log.level, log.category, log.time)];
        w := Step(w, log).value;
      } else if CaselessPrefix(EndPrefix, message) {
        var token := message[|EndPrefix|..];
        if stack != [] && stack[|stack| - 1].message == token {
          var last := stack[|stack| - 1];
          var delta := log.time - last.time;
          if !groupByToken {
            token := log.category;
          }
          EndTracks(w, log, stack, results, groupByToken, last, token, delta);
          stack := stack[..|stack| - 1];
          results := Add(results, token, delta, last.category);
          w := Step(w, log).value;
        } else {
          EndRejects(w, log, stack, results, groupByToken);
          MismatchAt(logs, i);
          SummaryMismatch(logs, groupByToken, now);
          return Mismatch(token);
        }
      }
    }
    assert logs[..|logs|] == logs;
    SummaryOk(logs, w, stack, results, groupByToken, now);
    results := CloseRemaining(stack, results, groupByToken, now, w.stack);
    var entries := results;
    report := Ok(SortByTotal(entries));
  }

  // ---------------------------------------------------------------------
  // What the report holds, key by key

  /** The closed blocks grouped under key, in the order they were closed. */
  function Group(spans: seq<ClosedSpan>, key: string, byToken: bool): seq<ClosedSpan>
  {
    if spans == [] then []
    else
      var c := spans[|spans| - 1];
      Group(spans[..|spans| - 1], key, byToken) + (if GroupKey(c, byToken) == key then [c] else [])
  }

  /** The grouping keys in the order they first occur. */
  function FirstKeys(spans: seq<ClosedSpan>, byToken: bool): seq<string>
  {
    if spans == [] then []
    else
      var keys, k := FirstKeys(spans[..|spans| - 1], byToken), GroupKey(spans[|spans| - 1], byToken);
      if k in keys then keys else keys + [k]
  }

  /** The sum of the durations of a group. */
  function Total(g: seq<ClosedSpan>): real
  {
    if g == [] then 0.0 else Total(g[..|g| - 1]) + g[|g| - 1].delta
  }

  /** The shortest duration of a group (0 for none). */
  function Shortest(g: seq<ClosedSpan>): real
  {
    if g == [] then 0.0
    else if |g| == 1 then g[0].delta
    else Min(Shortest(g[..|g| - 1]), g[|g| - 1].delta)
  }

  /** The longest duration of a group (0 for none). */
  function Longest(g: seq<ClosedSpan>): real
  {
    if g == [] then 0.0
    else if |g| == 1 then g[0].delta
    else Max(Longest(g[..|g| - 1]), g[|g| - 1].delta)
  }

  /** The row a group of blocks deserves: one call per block, the shortest,
      longest and total duration, and the category of the block when it is
      the only one. */
  function RowFor(key: string, g: seq<ClosedSpan>): SummaryRow
  {
    SummaryRow(key, |g|, Shortest(g), Longest(g), Total(g), if |g| == 1 then Some(g[0].category) else None)
  }

  /** The table holds, for each grouping key in order of first occurrence,
      the row its group deserves. */
  ghost predicate ByKey(table: seq<SummaryRow>, spans: seq<ClosedSpan>, byToken: bool)
  {
    var keys := FirstKeys(spans, byToken);
    && |table| == |keys|
    && forall i :: 0 <= i < |keys| ==> table[i] == RowFor(keys[i], Group(spans, keys[i], byToken))
  }

  lemma GroupAppend(spans: seq<ClosedSpan>, c: ClosedSpan, key: string, byToken: bool)
    ensures Group(spans + [c], key, byToken) == Group(spans, key, byToken) + (if GroupKey(c, byToken) == key then [c] else [])
  {
    assert (spans + [c])[..|spans|] == spans;
  }

  lemma FirstKeysAppend(spans: seq<ClosedSpan>, c: ClosedSpan, byToken: bool)
    ensures var keys := FirstKeys(spans, byToken);
            FirstKeys(spans + [c], byToken) == if GroupKey(c, byToken) in keys then keys else keys + [GroupKey(c, byToken)]
  {
    assert (spans + [c])[..|spans|] == spans;
  }

  /** Each key occurs once among the first keys, and a key is among them
      exactly when its group is not empty. */
  lemma {:induction false} FirstKeysExact(spans: seq<ClosedSpan>, byToken: bool)
    ensures var keys := FirstKeys(spans, byToken);
            && (forall i, j :: 0 <= i < j < |keys| ==> keys[i] != keys[j])
            && forall key :: key in keys <==> Group(spans, key, byToken) != []
  {
    if spans != [] {
      var init, c := spans[..|spans| - 1], spans[|spans| - 1];
      assert spans == init + [c];
      FirstKeysExact(init, byToken);
      FirstKeysAppend(init, c, byToken);
      forall key ensures key in FirstKeys(spans, byToken) <==> Group(spans, key, byToken) != [] {
        GroupAppend(init, c, key, byToken);
      }
    }
  }

  /** One more block in a non-empty group: one more call, its duration
      added to the total and weighed against the shortest and longest, and
      no category. */
  lemma {:induction false} RowForGrows(key: string, g: seq<ClosedSpan>, c: ClosedSpan)
    requires g != []
    ensures Shortest(g) <= Longest(g)
    ensures RowFor(key, g + [c]) == Aggregate(RowFor(key, g), c.delta)
  {
    var g' := g + [c];
    assert g'[..|g|] == g && g'[|g|] == c;
    if |g| > 1 {
      RowForGrows(key, g[..|g| - 1], g[|g| - 1]);
      assert g[..|g| - 1] + [g[|g| - 1]] == g;
    }
  }

  /** The groups of the keys other than the block's own do not change. */
  lemma OtherGroups(spans: seq<ClosedSpan>, c: ClosedSpan, byToken: bool)
    ensures var keys := FirstKeys(spans, byToken);
            forall j :: 0 <= j < |keys| && keys[j] != GroupKey(c, byToken) ==>
              Group(spans + [c], keys[j], byToken) == Group(spans, keys[j], byToken)
  {
    var keys := FirstKeys(spans, byToken);
    forall j | 0 <= j < |keys| && keys[j] != GroupKey(c, byToken)
      ensures Group(spans + [c], keys[j], byToken) == Group(spans, keys[j], byToken)
    {
      GroupAppend(spans, c, keys[j], byToken);
    }
  }

  /** A block whose key already has row i is aggregated into that row. */
  lemma AggregateByKey(table: seq<SummaryRow>, spans: seq<ClosedSpan>, c: ClosedSpan, byToken: bool, i: nat)
    requires ByKey(table, spans, byToken)
    requires i < |table| && FirstKeys(spans, byToken)[i] == GroupKey(c, byToken)
    ensures ByKey(table[i := Aggregate(table[i], c.delta)], spans + [c], byToken)
  {
    var k := GroupKey(c, byToken);
    FirstKeysExact(spans, byToken);
    FirstKeysAppend(spans, c, byToken);
    OtherGroups(spans, c, byToken);
    GroupAppend(spans, c, k, byToken);
    RowForGrows(k, Group(spans, k, byToken), c);
    var keys := FirstKeys(spans, byToken);
    var table' := table[i := Aggregate(table[i], c.delta)];
    forall j | 0 <= j < |keys| ensures table'[j] == RowFor(keys[j], Group(spans + [c], keys[j], byToken)) {
      if j != i {
        assert keys[j] != k;
      }
    }
  }

  /** The row of a single block: one call, its duration as shortest,
      longest and total, and its category. */
  lemma SingleRow(key: string, c: ClosedSpan)
    ensures RowFor(key, [c]) == SummaryRow(key, 1, c.delta, c.delta, c.delta, Some(c.category))
  {
    assert [c][..0] == [];
    assert Total([c]) == Total([]) + c.delta;
  }

  /** A block whose key has no row yet opens a new last row. */
  lemma NewByKey(table: seq<SummaryRow>, spans: seq<ClosedSpan>, c: ClosedSpan, byToken: bool)
    requires ByKey(table, spans, byToken)
    requires GroupKey(c, byToken) !in FirstKeys(spans, byToken)
    ensures var k := GroupKey(c, byToken);
            ByKey(table + [SummaryRow(k, 1, c.delta, c.delta, c.delta, Some(c.category))], spans + [c], byToken)
  {
    var k := GroupKey(c, byToken);
    FirstKeysExact(spans, byToken);
    FirstKeysAppend(spans, c, byToken);
    OtherGroups(spans, c, byToken);
    GroupAppend(spans, c, k, byToken);
    assert Group(spans, k, byToken) == [];
    assert Group(spans + [c], k, byToken) == [c];
    SingleRow(k, c);
    var keys' := FirstKeys(spans, byToken) + [k];
    var table' := table + [SummaryRow(k, 1, c.delta, c.delta, c.delta, Some(c.category))];
    forall j | 0 <= j < |keys'| ensures table'[j] == RowFor(keys'[j], Group(spans + [c], keys'[j], byToken)) {
      if j < |table| {
        assert table'[j] == table[j] && keys'[j] == FirstKeys(spans, byToken)[j];
      }
    }
  }

  /** Adding a block's duration under its key keeps the table in step with
      the groups. */
  lemma AddByKey(table: seq<SummaryRow>, spans: seq<ClosedSpan>, c: ClosedSpan, byToken: bool)
    requires ByKey(table, spans, byToken)
    ensures ByKey(Add(table, GroupKey(c, byToken), c.delta, c.category), spans + [c], byToken)
  {
    var k := GroupKey(c, byToken);
    var i := Find(table, k);
    if i < |table| {
      AggregateByKey(table, spans, c, byToken, i);
    } else {
      NewByKey(table, spans, c, byToken);
    }
  }

  /** The table the route folds up holds one row per grouping key, in order
      of first occurrence, each with the number of blocks under the key, their
      shortest, longest and total duration, and the category of the first
      block while it is the only one. */
  lemma {:induction false} TallyByKey(spans: seq<ClosedSpan>, byToken: bool)
    ensures ByKey(Tally(spans, byToken), spans, byToken)
  {
    if spans == [] {
      assert Tally(spans, byToken) == [];
    } else {
      var init, c := spans[..|spans| - 1], spans[|spans| - 1];
      assert spans == init + [c];
      TallyByKey(init, byToken);
      TallyAppend(init, c, byToken);
      AddByKey(Tally(init, byToken), init, c, byToken);
    }
  }

  /** Values that occur twice are counted twice. */
  lemma MultisetTwice(rows: seq<SummaryRow>, i: nat, j: nat)
    requires i < j < |rows| && rows[i] == rows[j]
    ensures multiset(rows)[rows[i]] >= 2
  {
    assert rows == rows[..j] + [rows[j]] + rows[j + 1..];
    assert rows[..j][i] == rows[i];
  }

  /** In a table whose tokens are distinct, every row occurs once. */
  lemma {:induction false} DistinctOnce(rows: seq<SummaryRow>, x: SummaryRow)
    requires forall i, j :: 0 <= i < j < |rows| ==> rows[i].token != rows[j].token
    ensures multiset(rows)[x] <= 1
  {
    if rows != [] {
      var init := rows[..|rows| - 1];
      assert rows == init + [rows[|rows| - 1]];
      DistinctOnce(init, x);
      if rows[|rows| - 1] == x {
        assert x !in init by {
          assert forall i :: 0 <= i < |init| ==> init[i] == rows[i];
        }
      }
    }
  }

  /** Every row of a reordering of a table in step with the groups is the
      row of one of the keys. */
  lemma PermutedRows(table: seq<SummaryRow>, rows: seq<SummaryRow>, keys: seq<string>, spans: seq<ClosedSpan>, byToken: bool)
    requires keys == FirstKeys(spans, byToken)
    requires ByKey(table, spans, byToken) && multiset(rows) == multiset(table)
    ensures forall i :: 0 <= i < |rows| ==> rows[i].token in keys && rows[i] == RowFor(rows[i].token, Group(spans, rows[i].token, byToken))
  {
    forall i | 0 <= i < |rows|
      ensures rows[i].token in keys && rows[i] == RowFor(rows[i].token, Group(spans, rows[i].token, byToken))
    {
      assert rows[i] in multiset(table);
      var j :| 0 <= j < |table| && table[j] == rows[i];
      assert table[j] == RowFor(keys[j], Group(spans, keys[j], byToken));
    }
  }

  /** Any reordering of a table in step with the groups holds the row each
      key deserves, for exactly the keys that occur. */
  lemma PermutedKeys(table: seq<SummaryRow>, rows: seq<SummaryRow>, spans: seq<ClosedSpan>, byToken: bool)
    requires ByKey(table, spans, byToken) && multiset(rows) == multiset(table)
    ensures forall i :: 0 <= i < |rows| ==> rows[i] == RowFor(rows[i].token, Group(spans, rows[i].token, byToken))
    ensures forall key :: Group(spans, key, byToken) != [] <==> exists i :: 0 <= i < |rows| && rows[i].token == key
  {
    var keys := FirstKeys(spans, byToken);
    FirstKeysExact(spans, byToken);
    PermutedRows(table, rows, keys, spans, byToken);
    forall key | Group(spans, key, byToken) != []
      ensures exists i :: 0 <= i < |rows| && rows[i].token == key
    {
      var j :| 0 <= j < |keys| && keys[j] == key;
      assert table[j] in multiset(rows);
      var i :| 0 <= i < |rows| && rows[i] == table[j];
    }
  }

  /** Any reordering of a table in step with the groups holds each key once. */
  lemma PermutedDistinct(table: seq<SummaryRow>, rows: seq<SummaryRow>, spans: seq<ClosedSpan>, byToken: bool)
    requires ByKey(table, spans, byToken) && multiset(rows) == multiset(table)
    ensures forall i, j :: 0 <= i < j < |rows| ==> rows[i].token != rows[j].token
  {
    FirstKeysExact(spans, byToken);
    assert forall i, j :: 0 <= i < j < |table| ==> table[i].token != table[j].token;
    PermutedKeys(table, rows, spans, byToken);
    forall i, j | 0 <= i < j < |rows| ensures rows[i].token != rows[j].token {
      if rows[i].token == rows[j].token {
        assert rows[i] == rows[j];
        MultisetTwice(rows, i, j);
        DistinctOnce(table, rows[i]);
      }
    }
  }

  /** The report of a batch without a mismatch holds one row per grouping
      key that occurs among the closed blocks, no key twice, each row with
      the number of blocks under the key, their shortest, longest and total
      duration and, while the block is the only one, its category; and the
      rows run from the largest total to the smallest. */
  lemma SummaryByKey(logs: seq<Record>, byToken: bool, now: real)
    requires Summary(logs, byToken, now).Ok?
    ensures var spans, rows := Spans(logs, now).value, Summary(logs, byToken, now).value;
            && NonIncreasing(rows)
            && (forall i, j :: 0 <= i < j < |rows| ==> rows[i].token != rows[j].token)
            && (forall i :: 0 <= i < |rows| ==> rows[i] == RowFor(rows[i].token, Group(spans, rows[i].token, byToken)))
            && (forall key :: Group(spans, key, byToken) != [] <==> exists i :: 0 <= i < |rows| && rows[i].token == key)
  {
    var spans := Spans(logs, now).value;
    var table := Tally(spans, byToken);
    TallyByKey(spans, byToken);
    PermutedKeys(table, SortByTotal(table), spans, byToken);
    PermutedDistinct(table, SortByTotal(table), spans, byToken);
  }

  // ---------------------------------------------------------------------
  // Every begin record is counted once

  /** The number of calls over all rows. */
  function Calls(rows: seq<SummaryRow>): nat
  {
    if rows == [] then 0 else Calls(rows[..|rows| - 1]) + rows[|rows| - 1].calls
  }

  lemma {:induction false} CallsConcat(a: seq<SummaryRow>, b: seq<SummaryRow>)
    ensures Calls(a + b) == Calls(a) + Calls(b)
    decreases |b|
  {
    if b == [] {
      assert a + b == a;
    } else {
      var init := b[..|b| - 1];
      CallsConcat(a, init);
      assert (a + b)[..|a + b| - 1] == a + init;
    }
  }

  /** Replacing one row changes the calls by the difference. */
  lemma CallsUpdate(rows: seq<SummaryRow>, i: nat, r: SummaryRow)
    requires i < |rows|
    ensures Calls(rows[i := r]) == Calls(rows) - rows[i].calls + r.calls
  {
    assert rows == rows[..i] + [rows[i]] + rows[i + 1..];
    assert rows[i := r] == rows[..i] + [r] + rows[i + 1..];
    CallsConcat(rows[..i] + [rows[i]], rows[i + 1..]);
    CallsConcat(rows[..i] + [r], rows[i + 1..]);
    CallsConcat(rows[..i], [rows[i]]);
    CallsConcat(rows[..i], [r]);
    assert Calls([r]) == r.calls && Calls([rows[i]]) == rows[i].calls by {
      assert [r][..0] == [] && [rows[i]][..0] == [];
    }
  }

  /** Every duration added counts one call more. */
  lemma CallsAdd(table: seq<SummaryRow>, key: string, delta: real, category: string)
    ensures Calls(Add(table, key, delta, category)) == Calls(table) + 1
  {
    var i := Find(table, key);
    if i < |table| {
      CallsUpdate(table, i, Aggregate(table[i], delta));
    } else {
      var row := SummaryRow(key, 1, delta, delta, delta, Some(category));
      assert (table + [row])[..|table|] == table;
    }
  }

  /** The table folded from the closed blocks counts one call per block. */
  lemma {:induction false} CallsTally(spans: seq<ClosedSpan>, byToken: bool)
    ensures Calls(Tally(spans, byToken)) == |spans|
  {
    if spans == [] {
      assert Tally(spans, byToken) == [];
    } else {
      var init, c := spans[..|spans| - 1], spans[|spans| - 1];
      assert spans == init + [c];
      CallsTally(init, byToken);
      TallyAppend(init, c, byToken);
      CallsAdd(Tally(init, byToken), GroupKey(c, byToken), c.delta, c.category);
    }
  }

  lemma CallsCons(r: SummaryRow, rows: seq<SummaryRow>)
    ensures Calls([r] + rows) == r.calls + Calls(rows)
  {
    CallsConcat([r], rows);
    assert [r][..0] == [];
  }

  /** Inserting a row adds its calls. */
  lemma {:induction false} CallsInsert(sorted: seq<SummaryRow>, x: SummaryRow)
    requires NonIncreasing(sorted)
    ensures Calls(Insert(sorted, x)) == Calls(sorted) + x.calls
  {
    if sorted == [] {
      CallsCons(x, []);
      assert [x] + [] == [x];
    } else if sorted[0].total >= x.total {
      var tail := sorted[1..];
      assert sorted == [sorted[0]] + tail;
      assert NonIncreasing(tail);
      CallsInsert(tail, x);
      CallsCons(sorted[0], tail);
      CallsCons(sorted[0], Insert(tail, x));
    } else {
      CallsCons(x, sorted);
    }
  }

  /** Sorting keeps the calls. */
  lemma {:induction false} CallsSort(rows: seq<SummaryRow>)
    ensures Calls(SortByTotal(rows)) == Calls(rows)
  {
    if rows != [] {
      var init := rows[..|rows| - 1];
      CallsSort(init);
      CallsInsert(SortByTotal(init), rows[|rows| - 1]);
    }
  }

  /** The calls of the report add up to the number of begin records. */
  lemma SummaryCalls(logs: seq<Record>, byToken: bool, now: real)
    requires Summary(logs, byToken, now).Ok?
    ensures Calls(Summary(logs, byToken, now).value) == |BeginPositions(logs)|
  {
    var spans := Spans(logs, now).value;
    SpansComplete(logs, now);
    CallsTally(spans, byToken);
    CallsSort(Tally(spans, byToken));
  }

  // ---------------------------------------------------------------------
  // Small batches

  /** The report of a batch the walk completes. */
  lemma ScannedSummary(logs: seq<Record>, w: Walk, byToken: bool, now: real)
    requires Scan(logs) == Ok(w)
    ensures Summary(logs, byToken, now) == Ok(SortByTotal(Tally(w.closed + Drain(w.stack, now), byToken)))
  {
  }

  /** An empty batch yields an empty report. */
  lemma EmptySummary(byToken: bool, now: real)
    ensures Summary([], byToken, now) == Ok([])
  {
    ScannedSummary([], Start, byToken, now);
    assert Start.closed + Drain(Start.stack, now) == [];
    assert Tally([], byToken) == [];
  }

  /** Two blocks under one key fold into one row of two calls with no
      category. */
  lemma PairTally(x: ClosedSpan, y: ClosedSpan, byToken: bool)
    requires GroupKey(x, byToken) == GroupKey(y, byToken)
    ensures Tally([x, y], byToken)
         == [SummaryRow(GroupKey(x, byToken), 2, Min(x.delta, y.delta), Max(x.delta, y.delta), x.delta + y.delta, None)]
  {
    var first := SummaryRow(GroupKey(x, byToken), 1, x.delta, x.delta, x.delta, Some(x.category));
    TallyAppend([], x, byToken);
    assert [] + [x] == [x];
    assert Tally([], byToken) == [];
    assert Tally([x], byToken) == [first];
    TallyAppend([x], y, byToken);
    assert [x] + [y] == [x, y];
    assert Find([first], GroupKey(y, byToken)) == 0;
  }

  /** A single row is sorted as it stands. */
  lemma SingleSorted(row: SummaryRow)
    ensures SortByTotal([row]) == [row]
  {
    assert [row][..0] == [];
  }

  /** The report of two blocks under one key. */
  lemma PairReport(x: ClosedSpan, y: ClosedSpan, byToken: bool)
    requires GroupKey(x, byToken) == GroupKey(y, byToken)
    ensures SortByTotal(Tally([x, y], byToken))
         == [SummaryRow(GroupKey(x, byToken), 2, Min(x.delta, y.delta), Max(x.delta, y.delta), x.delta + y.delta, None)]
  {
    PairTally(x, y, byToken);
    SingleSorted(SummaryRow(GroupKey(x, byToken), 2, Min(x.delta, y.delta), Max(x.delta, y.delta), x.delta + y.delta, None));
  }

  /** A token nested in itself, grouped by token: one row of two calls whose
      total is the sum of both durations, and no category. */
  lemma RepeatedSummary(a: string, cat: string, t0: real, t1: real, t2: real, t3: real, now: real)
    ensures Summary(NestedBatch(a, a, cat, t0, t1, t2, t3), true, now)
         == Ok([SummaryRow(a, 2, Min(t2 - t1, t3 - t0), Max(t2 - t1, t3 - t0), t2 - t1 + (t3 - t0), None)])
  {
    var inner, outer := ClosedSpan(a, t2 - t1, 1, cat, cat, 1), ClosedSpan(a, t3 - t0, 0, cat, cat, 0);
    var w := Walk([], [inner, outer], 2);
    NestedScan(a, a, cat, t0, t1, t2, t3);
    PairReport(inner, outer, true);
    assert w.closed + Drain(w.stack, now) == [inner, outer] by {
      assert Drain([], now) == [];
    }
    ScannedSummary(NestedBatch(a, a, cat, t0, t1, t2, t3), w, true, now);
  }
}
