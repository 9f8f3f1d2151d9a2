/** The call-stack report: one row per profiled block, in the order the
    blocks were opened, each with its duration and its nesting depth. */
module CallstackReport {
  import opened ProfileRecords
  import opened SpanMatcher

  /** One row of the report: token, duration, depth and category. */
  datatype CallRow = CallRow(token: string, delta: real, depth: nat, category: string)

  function RowOf(c: ClosedSpan): CallRow
  {
    CallRow(c.token, c.delta, c.depth, c.category)
  }

  /** The results table keyed by begin index, written row by row as the
      blocks close (a later row with the same key replaces the earlier one). */
  function Keyed(spans: seq<ClosedSpan>): map<nat, CallRow>
  {
    if spans == [] then map[]
    else Keyed(spans[..|spans| - 1])[spans[|spans| - 1].index := RowOf(spans[|spans| - 1])]
  }

  /** The table sorted by key and read out: the rows whose keys are below n,
      in increasing key order. */
  function KSort(m: map<nat, CallRow>, n: nat): (r: seq<CallRow>)
    ensures |r| <= n
    ensures forall i :: 0 <= i < |r| ==> r[i] in m.Values
  {
    if n == 0 then []
    else KSort(m, n - 1) + (if n - 1 in m then [m[n - 1]] else [])
  }

  /** Writing one more block into the table sets the entry of its index. */
  lemma KeyedAppend(spans: seq<ClosedSpan>, c: ClosedSpan)
    ensures Keyed(spans + [c]) == Keyed(spans)[c.index := RowOf(c)]
  {
    assert (spans + [c])[..|spans|] == spans;
  }

  /** The report a batch yields, given the time at which it is built. */
  function Callstack(logs: seq<Record>, now: real): (o: Outcome<seq<CallRow>>)
    ensures o.Mismatch? <==> Scan(logs).Mismatch?
    ensures o.Ok? ==> |o.value| <= Scan(logs).value.n
  {
    match Scan(logs)
    case Mismatch(t) => Mismatch(t)
    case Ok(w) => Ok(KSort(Keyed(w.closed + Drain(w.stack, now)), w.n))
  }

  /** A begin record pushes a block carrying the next begin index and
      writes nothing into the table. */
  lemma CallBegin(w: Walk, log: Record, token: string)
    requires log.level == ProfileLevel && CaselessPrefix(BeginPrefix, log.message)
    requires token == log.message[|BeginPrefix|..]
    ensures Step(w, log) == Ok(Walk(w.stack + [OpenSpan(token, log.category, log.time, w.n)], w.closed, w.n + 1))
  { }

  /** An end record whose token is that of the top block pops it and writes
      its row, with the time since its begin record and the number of blocks
      left open, under its begin index. */
  lemma CallEnd(w: Walk, log: Record, results: map<nat, CallRow>, last: OpenSpan, rest: seq<OpenSpan>, token: string, delta: real)
    requires results == Keyed(w.closed)
    requires log.level == ProfileLevel && !CaselessPrefix(BeginPrefix, log.message) && CaselessPrefix(EndPrefix, log.message)
    requires token == log.message[|EndPrefix|..]
    requires w.stack != [] && last == w.stack[|w.stack| - 1] && rest == w.stack[..|w.stack| - 1] && last.token == token
    requires delta == log.time - last.start
    ensures var c := ClosedSpan(token, delta, |rest|, last.category, log.category, last.index);
            && Step(w, log) == Ok(Walk(rest, w.closed + [c], w.n))
            && results[last.index := CallRow(token, delta, |rest|, last.category)] == Keyed(w.closed + [c])
  {
    var c := ClosedSpan(token, delta, |rest|, last.category, log.category, last.index);
    assert RowOf(c) == CallRow(token, delta, |rest|, last.category);
    KeyedAppend(w.closed, c);
  }

  /** Popping the block at height |stack| - 1 - k as the route does, once the
      first k blocks the walk closes against now are written, writes the
      first k + 1. */
  lemma PopKeyed(table: map<nat, CallRow>, closed: seq<ClosedSpan>, drained: seq<ClosedSpan>, stack: seq<OpenSpan>, now: real,
                 k: nat, last: OpenSpan, depth: nat)
    requires drained == Drain(stack, now) && k < |stack|
    requires table == Keyed(closed + drained[..k])
    requires last == stack[|stack| - 1 - k] && depth == |stack| - 1 - k
    ensures table[last.index := CallRow(last.token, now - last.start, depth, last.category)] == Keyed(closed + drained[..k + 1])
  {
    DrainAt(stack, now, k);
    var c := drained[k];
    assert RowOf(c) == CallRow(last.token, now - last.start, depth, last.category) && c.index == last.index;
    assert closed + drained[..k + 1] == (closed + drained[..k]) + [c];
    KeyedAppend(closed + drained[..k], c);
  }

  /** Pops the blocks still on the stack at the end of the batch, writing
      for each its row with the time from its begin record to now. */
  method CloseOpen(stack: seq<OpenSpan>, results: map<nat, CallRow>, now: real, ghost closed: seq<ClosedSpan>)
    returns (table: map<nat, CallRow>)
    requires results == Keyed(closed)
    ensures table == Keyed(closed + Drain(stack, now))
  {
    var rest := stack;
    ghost var drained := Drain(stack, now);
    table := results;
    assert closed + drained[..0] == closed;
    while rest != []
      invariant |rest| <= |stack| && rest == stack[..|rest|]
      invariant table == Keyed(closed + drained[..|stack| - |rest|])
      decreases |rest|
    {
      var last := rest[|rest| - 1];
      ghost var k := |stack| - |rest|;
      assert last == stack[|stack| - 1 - k];
      rest := rest[..|rest| - 1];
      PopKeyed(table, closed, drained, stack, now, k, last, |rest|);
      table := table[last.index := CallRow(last.token, now - last.start, |rest|, last.category)];
      assert |stack| - |rest| == k + 1;
    }
    assert drained[..|stack|] == drained;
  }

  /** Builds the call-stack report: one pass over the records with a stack
      of open blocks and a running begin counter, then the blocks still open
      are closed against now, then the table is sorted by begin index. */
  method CreateCallstack(logs: seq<Record>, now: real) returns (report: Outcome<seq<CallRow>>)
    ensures report == Callstack(logs, now)
  {
    var stack: seq<OpenSpan> := [];
    var results: map<nat, CallRow> := map[];
    var n: nat := 0;
    ghost var closed: seq<ClosedSpan> := [];
    for i := 0 to |logs|
      invariant Scan(logs[..i]) == Ok(Walk(stack, closed, n))
      invariant results == Keyed(closed)
    {
      var log := logs[i];
      ghost var w := Walk(stack, closed, n);
      assert logs[..i + 1] == logs[..i] + [log];
      ScanExtend(logs[..i], w, log, logs[..i + 1]);
      if log.level != ProfileLevel {
        continue;
      }
      var message := log.message;
      if CaselessPrefix(BeginPrefix, message) {
        CallBegin(w, log, message[|BeginPrefix|..]);
        stack := stack + [OpenSpan(message[|BeginPrefix|..], log.category, log.time, n)];
        n := n + 1;
      } else if CaselessPrefix(EndPrefix, message) {
        var token := message[|EndPrefix|..];
        if stack != [] && stack[|stack| - 1].token == token {
          var last := stack[|stack| - 1];
          stack := stack[..|stack| - 1];
          var delta := log.time - last.start;
          CallEnd(w, log, results, last, stack, token, delta);
          results := results[last.index := CallRow(token, delta, |stack|, last.category)];
          closed := closed + [ClosedSpan(token, delta, |stack|, last.category, log.category, last.index)];
        } else {
          MismatchAt(logs, i);
          return Mismatch(token);
        }
      }
    }
    assert logs[..|logs|] == logs;
    results := CloseOpen(stack, results, now, closed);
    report := Ok(KSort(results, n));
  }

  // ---------------------------------------------------------------------
  // What the report holds

  /** A table holding the entry of every block, updated with the entry of a
      block whose index is new, holds the entry of every block and that one. */
  lemma EntriesGrow(m: map<nat, CallRow>, init: seq<ClosedSpan>, c: ClosedSpan)
    requires m.Keys == ClosedIndices(init)
    requires forall i :: 0 <= i < |init| ==> m[init[i].index] == RowOf(init[i])
    requires forall i :: 0 <= i < |init| ==> init[i].index != c.index
    ensures var m', spans := m[c.index := RowOf(c)], init + [c];
            && m'.Keys == ClosedIndices(spans)
            && forall i :: 0 <= i < |spans| ==> m'[spans[i].index] == RowOf(spans[i])
  {
    var spans := init + [c];
    assert ClosedIndices(spans) == ClosedIndices(init) + {c.index} by {
      assert forall i :: 0 <= i < |init| ==> spans[i] == init[i];
      assert spans[|init|] == c;
    }
    forall i | 0 <= i < |spans| ensures m[c.index := RowOf(c)][spans[i].index] == RowOf(spans[i]) {
      if i < |init| {
        assert spans[i] == init[i];
      }
    }
  }

  /** With distinct begin indices, every block has its own entry in the table. */
  lemma {:induction false} KeyedAt(spans: seq<ClosedSpan>)
    requires forall i, j :: 0 <= i < j < |spans| ==> spans[i].index != spans[j].index
    ensures Keyed(spans).Keys == ClosedIndices(spans)
    ensures forall i :: 0 <= i < |spans| ==> Keyed(spans)[spans[i].index] == RowOf(spans[i])
  {
    if spans != [] {
      var init, c := spans[..|spans| - 1], spans[|spans| - 1];
      assert spans == init + [c];
      assert forall i :: 0 <= i < |init| ==> init[i] == spans[i];
      KeyedAt(init);
      KeyedAppend(init, c);
      EntriesGrow(Keyed(init), init, c);
    }
  }

  /** Sorting a table whose keys are 0 to n - 1 gives one row per key, row k
      holding the entry of key k. */
  lemma {:induction false} KSortAt(m: map<nat, CallRow>, n: nat)
    requires forall k: nat :: k < n ==> k in m
    ensures |KSort(m, n)| == n
    ensures forall k :: 0 <= k < n ==> KSort(m, n)[k] == m[k]
  {
    if n > 0 {
      KSortAt(m, n - 1);
    }
  }

  /** When the closed blocks carry each index below n exactly once, the
      sorted report has n rows, the row of each block sitting at its index. */
  lemma {:induction false} RowsAt(all: seq<ClosedSpan>, n: nat)
    requires forall i, j :: 0 <= i < j < |all| ==> all[i].index != all[j].index
    requires ClosedIndices(all) == Below(n)
    ensures var rows := KSort(Keyed(all), n);
            && |rows| == n
            && forall p :: 0 <= p < |all| ==> all[p].index < n && rows[all[p].index] == RowOf(all[p])
  {
    KeyedAt(all);
    var m := Keyed(all);
    assert forall k: nat :: k < n ==> k in m by {
      assert forall k: nat :: k < n ==> k in Below(n);
    }
    KSortAt(m, n);
    forall p | 0 <= p < |all|
      ensures all[p].index < n
    {
      assert all[p].index in ClosedIndices(all);
    }
  }

  /** The row the begin record at position pos deserves, given the nesting
      level at which it was read: its token and category, that level as
      depth, and a duration running from the record either to the first
      later record that brings the level back down to that level (an end
      record with the same token) or, when no later record does, to now. */
  ghost predicate RowOfBegin(row: CallRow, pos: nat, level: int, logs: seq<Record>, now: real)
  {
    && pos < |logs|
    && Classify(logs[pos]) == BeginMark(row.token)
    && row.category == logs[pos].category
    && row.depth == level
    && (|| (Above(logs, pos, |logs|, level) && row.delta == now - logs[pos].time)
        || exists q: nat :: ClosesAt(logs, pos, q, level) && Classify(logs[q]) == EndMark(row.token)
                            && row.delta == logs[q].time - logs[pos].time)
  }

  /** The first record to bring the level back down is the only one. */
  lemma ClosesOnce(logs: seq<Record>, pos: nat, q: nat, level: int)
    requires ClosesAt(logs, pos, q, level)
    ensures forall q': nat :: ClosesAt(logs, pos, q', level) ==> q' == q
  {
  }

  /** The row a begin record deserves is unique: no two rows fit it. */
  lemma RowOfBeginUnique(row: CallRow, row': CallRow, pos: nat, level: int, logs: seq<Record>, now: real)
    requires RowOfBegin(row, pos, level, logs, now) && RowOfBegin(row', pos, level, logs, now)
    ensures row == row'
  {
    if exists q: nat :: ClosesAt(logs, pos, q, level) {
      var q: nat :| ClosesAt(logs, pos, q, level);
      assert !Above(logs, pos, |logs|, level);
      ClosesOnce(logs, pos, q, level);
    }
  }

  /** Row k of the sorted table of a complete set of closed blocks is the
      block opened by the k-th begin record. */
  lemma {:induction false} RowsOfSpans(all: seq<ClosedSpan>, n: nat, logs: seq<Record>, now: real, bp: seq<nat>, lv: seq<int>)
    requires |bp| == |lv| == n
    requires forall i, j :: 0 <= i < j < |all| ==> all[i].index != all[j].index
    requires ClosedIndices(all) == Below(n)
    requires forall i :: 0 <= i < |all| ==> EndedBy(all[i], logs, bp, lv) || ForcedAt(all[i], now, logs, bp, lv)
    ensures var rows := KSort(Keyed(all), n);
            |rows| == n && forall k :: 0 <= k < n ==> RowOfBegin(rows[k], bp[k], lv[k], logs, now)
  {
    RowsAt(all, n);
    var rows := KSort(Keyed(all), n);
    forall k | 0 <= k < n
      ensures RowOfBegin(rows[k], bp[k], lv[k], logs, now)
    {
      assert k in ClosedIndices(all) by {
        assert k in Below(n);
      }
      var i :| 0 <= i < |all| && all[i].index == k;
      RowOfBlock(all[i], rows[k], logs, now, bp, lv);
    }
  }

  /** The row of a block that an end record or now closed. */
  lemma RowOfBlock(c: ClosedSpan, row: CallRow, logs: seq<Record>, now: real, bp: seq<nat>, lv: seq<int>)
    requires c.index < |bp| == |lv|
    requires row == RowOf(c) && (EndedBy(c, logs, bp, lv) || ForcedAt(c, now, logs, bp, lv))
    ensures RowOfBegin(row, bp[c.index], lv[c.index], logs, now)
  {
  }

  /** The report of a batch without a mismatch has exactly one row per begin
      record, in the order of the begin records. Row k carries the token and
      the category of the k-th begin record and, as its depth, the nesting
      level at which that record was read (0 for a top-level block). Its
      duration runs from the begin record to the first later record that
      brings the level back down to that depth, an end record with the same
      token, or, for a block no later record closes, to now. */
  lemma {:induction false} CallstackRows(logs: seq<Record>, now: real)
    requires Callstack(logs, now).Ok?
    ensures |Callstack(logs, now).value| == |BeginPositions(logs)| == |BeginLevels(logs)|
    ensures forall k :: 0 <= k < |Callstack(logs, now).value| ==>
              RowOfBegin(Callstack(logs, now).value[k], BeginPositions(logs)[k], BeginLevels(logs)[k], logs, now)
  {
    var w := Scan(logs).value;
    SpansComplete(logs, now);
    RowsOfSpans(w.closed + Drain(w.stack, now), w.n, logs, now, BeginPositions(logs), BeginLevels(logs));
  }

  /** Row by row, the blocks left on the stack in a table whose indices are
      exactly those below n, each once. */
  lemma {:induction false} ForcedRowsOf(stack: seq<OpenSpan>, closed: seq<ClosedSpan>, n: nat, now: real)
    requires var all := closed + Drain(stack, now);
             && (forall a, b :: 0 <= a < b < |all| ==> all[a].index != all[b].index)
             && ClosedIndices(all) == Below(n)
    ensures var rows := KSort(Keyed(closed + Drain(stack, now)), n);
            forall j :: 0 <= j < |stack| ==>
              && stack[j].index < |rows|
              && rows[stack[j].index] == CallRow(stack[j].token, now - stack[j].start, j, stack[j].category)
  {
    var d := Drain(stack, now);
    var all := closed + d;
    RowsAt(all, n);
    forall j | 0 <= j < |stack|
      ensures all[|closed| + |stack| - 1 - j]
              == ClosedSpan(stack[j].token, now - stack[j].start, j, stack[j].category, stack[j].category, stack[j].index)
    {
      DrainOf(stack, now, j);
    }
  }

  /** A block still open at the end of the batch is reported against now,
      at a depth equal to the number of blocks still open beneath it. */
  lemma {:induction false} ForcedRows(logs: seq<Record>, now: real)
    requires Scan(logs).Ok?
    ensures var w, rows := Scan(logs).value, Callstack(logs, now).value;
            forall j :: 0 <= j < |w.stack| ==>
              && w.stack[j].index < |rows|
              && rows[w.stack[j].index] == CallRow(w.stack[j].token, now - w.stack[j].start, j, w.stack[j].category)
  {
    var w := Scan(logs).value;
    SpansComplete(logs, now);
    ForcedRowsOf(w.stack, w.closed, w.n, now);
  }

  /** A record that the walk ignores may be dropped from anywhere in the batch
      without changing the report. */
  lemma {:induction false} IgnoredRecordsCallstack(p: seq<Record>, r: Record, s: seq<Record>, now: real)
    requires Classify(r).Unmarked?
    ensures Callstack(p + [r] + s, now) == Callstack(p + s, now)
  {
    IgnoredAnywhere(p, r, s);
  }

  /** The report fails exactly when the walk meets an end record it cannot
      accept, and the error carries that record's token. */
  lemma {:induction false} CallstackMismatch(logs: seq<Record>, now: real)
    ensures Callstack(logs, now).Mismatch? <==>
            exists q :: 0 <= q < |logs| && Scan(logs[..q]).Ok? && Rejects(Scan(logs[..q]).value, logs[q])
    ensures Callstack(logs, now).Mismatch? ==>
            exists q :: 0 <= q < |logs| && Scan(logs[..q]).Ok? && Rejects(Scan(logs[..q]).value, logs[q])
                        && Callstack(logs, now).token == Classify(logs[q]).token
  {
    if Scan(logs).Mismatch? {
      MismatchCause(logs);
    } else if exists q :: 0 <= q < |logs| && Scan(logs[..q]).Ok? && Rejects(Scan(logs[..q]).value, logs[q]) {
      var q :| 0 <= q < |logs| && Scan(logs[..q]).Ok? && Rejects(Scan(logs[..q]).value, logs[q]);
      MismatchAt(logs, q);
    }
  }

  // ---------------------------------------------------------------------
  // Small batches

  /** An empty batch yields an empty report. */
  lemma {:induction false} EmptyCallstack(now: real)
    ensures Callstack([], now) == Ok([])
  {
    assert Drain([], now) == [] && Keyed([]) == map[];
  }

  /** A single begin record with no end is closed against now at depth 0. */
  lemma {:induction false} UnterminatedCallstack(token: string, category: string, t: real, now: real)
    ensures Callstack([Record(BeginMessage(token), ProfileLevel, category, t)], now)
         == Ok([CallRow(token, now - t, 0, category)])
  {
    var r := Record(BeginMessage(token), ProfileLevel, category, t);
    var o := OpenSpan(token, category, t, 0);
    StepBegin(Start, token, category, t);
    assert Start.stack + [o] == [o];
    ScanExtend([], Start, r, [r]);
    var c := ClosedSpan(token, now - t, 0, category, category, 0);
    assert Drain([o], now) == [c] by {
      assert [o][..0] == [];
    }
    assert [] + [c] == [c] && [c][..0] == [];
    assert Keyed([]) == map[];
    var m := Keyed([c]);
    assert m == Keyed([c][..0])[0 := RowOf(c)];
    assert m == map[0 := RowOf(c)];
    assert KSort(m, 1) == KSort(m, 0) + [m[0]];
    assert KSort(m, 1) == [CallRow(token, now - t, 0, category)];
    assert Scan([r]) == Ok(Walk([o], [], 1));
    assert Callstack([r], now) == Ok(KSort(Keyed([] + Drain([o], now)), 1));
  }

  /** Two closed blocks, the later-begun one closed first, come out in
      begin order. */
  lemma {:induction false} TwoRows(x: ClosedSpan, y: ClosedSpan)
    requires x.index == 1 && y.index == 0
    ensures KSort(Keyed([x, y]), 2) == [RowOf(y), RowOf(x)]
  {
    assert [x, y][..1] == [x] && [x][..0] == [];
    assert Keyed([]) == map[];
    assert Keyed([x]) == Keyed([x][..0])[1 := RowOf(x)];
    var m := Keyed([x, y]);
    assert m == Keyed([x])[0 := RowOf(y)];
    assert m[0] == RowOf(y) && m[1] == RowOf(x);
    assert KSort(m, 1) == [] + [m[0]];
    assert KSort(m, 2) == KSort(m, 1) + [m[1]];
  }

  /** A batch whose walk closes two blocks, the later-begun one first, and
      leaves nothing open reports them in begin order. */
  lemma TwoClosed(logs: seq<Record>, x: ClosedSpan, y: ClosedSpan, now: real)
    requires x.index == 1 && y.index == 0
    requires Scan(logs) == Ok(Walk([], [x, y], 2))
    ensures Callstack(logs, now) == Ok([RowOf(y), RowOf(x)])
  {
    var w := Walk([], [x, y], 2);
    ScannedCallstack(logs, w, now);
    assert w.closed + Drain(w.stack, now) == [x, y] by {
      assert Drain([], now) == [];
    }
    TwoRows(x, y);
  }

  /** Begin a, begin b, end b, end a: a comes first, at depth 0 and lasting
      from its begin to its end; b follows at depth 1. */
  lemma NestedCallstack(a: string, b: string, cat: string, t0: real, t1: real, t2: real, t3: real, now: real)
    ensures Callstack(NestedBatch(a, b, cat, t0, t1, t2, t3), now)
         == Ok([CallRow(a, t3 - t0, 0, cat), CallRow(b, t2 - t1, 1, cat)])
  {
    NestedScan(a, b, cat, t0, t1, t2, t3);
    TwoClosed(NestedBatch(a, b, cat, t0, t1, t2, t3), ClosedSpan(b, t2 - t1, 1, cat, cat, 1), ClosedSpan(a, t3 - t0, 0, cat, cat, 0), now);
  }

  /** The report of a batch the walk completes. */
  lemma ScannedCallstack(logs: seq<Record>, w: Walk, now: real)
    requires Scan(logs) == Ok(w)
    ensures Callstack(logs, now) == Ok(KSort(Keyed(w.closed + Drain(w.stack, now)), w.n))
  {
  }

  /** Over any three records classified begin a, begin b, end a, with a and
      b different, the walk fails naming a. */
  lemma CrossedWalk(r0: Record, r1: Record, r2: Record, a: string, b: string)
    requires a != b
    requires Classify(r0) == BeginMark(a) && Classify(r1) == BeginMark(b) && Classify(r2) == EndMark(a)
    ensures Scan([r0, r1, r2]) == Mismatch(a)
  {
    var oa, ob := OpenSpan(a, r0.category, r0.time, 0), OpenSpan(b, r1.category, r1.time, 1);
    var w1, w2 := Walk([oa], [], 1), Walk([oa, ob], [], 2);
    assert Start.stack + [oa] == [oa];
    ScanExtend([], Start, r0, [r0]);
    assert [oa] + [ob] == [oa, ob];
    ScanExtend([r0], w1, r1, [r0, r1]);
    ScanExtend([r0, r1], w2, r2, [r0, r1, r2]);
  }

  /** Begin a, begin b, end a, with a and b different: the end record does
      not close the innermost block, and the report fails naming a. */
  lemma CrossedCallstack(a: string, b: string, cat: string, t0: real, t1: real, t2: real, now: real)
    requires a != b
    ensures Callstack([Record(BeginMessage(a), ProfileLevel, cat, t0), Record(BeginMessage(b), ProfileLevel, cat, t1),
                       Record(EndMessage(a), ProfileLevel, cat, t2)], now) == Mismatch(a)
  {
    MarkRoundTrip(a, cat, t0);
    MarkRoundTrip(b, cat, t1);
    MarkRoundTrip(a, cat, t2);
    CrossedWalk(Record(BeginMessage(a), ProfileLevel, cat, t0), Record(BeginMessage(b), ProfileLevel, cat, t1),
                Record(EndMessage(a), ProfileLevel, cat, t2), a, b);
  }
}
