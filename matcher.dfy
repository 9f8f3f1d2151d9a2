/** The span matcher shared by both reports: a walk over the log records
    that keeps the open blocks on a last-in-first-out stack, pairs every end
    record with the most recently opened block, rejects an end record that
    does not match it, and closes whatever is still open at the end of the
    batch against one timestamp. */
module SpanMatcher {
  import opened ProfileRecords

  /** A begin record waiting on the stack: its token, its category, its
      timestamp and its begin index (how many begin records came before it). */
  datatype OpenSpan = OpenSpan(token: string, category: string, start: real, index: nat)

  /** A closed block. depth is the number of blocks still open once it was
      popped; category is that of its begin record; closer is the category
      of the record that closed it (the end record, or the begin record
      itself when the block was closed at the end of the batch). */
  datatype ClosedSpan = ClosedSpan(token: string, delta: real, depth: nat, category: string, closer: string, index: nat)

  /** The state of the walk: the stack, the blocks closed so far (in the
      order they were closed) and the begin counter. */
  datatype Walk = Walk(stack: seq<OpenSpan>, closed: seq<ClosedSpan>, n: nat)

  const Start := Walk([], [], 0)

  /** An end record that the walk in state w cannot accept: the stack is
      empty, or the block on top of it has another token (compared exactly). */
  predicate Rejects(w: Walk, r: Record)
  {
    Classify(r).EndMark? && (w.stack == [] || w.stack[|w.stack| - 1].token != Classify(r).token)
  }

  /** One record of the walk. */
  function Step(w: Walk, r: Record): (o: Outcome<Walk>)
    ensures o.Mismatch? <==> Rejects(w, r)
    ensures o.Mismatch? ==> o == Mismatch(Classify(r).token)
    ensures Classify(r).Unmarked? ==> o == Ok(w)
  {
    match Classify(r)
    case Unmarked => Ok(w)
    case BeginMark(t) => Ok(Walk(w.stack + [OpenSpan(t, r.category, r.time, w.n)], w.closed, w.n + 1))
    case EndMark(t) =>
      if w.stack != [] && w.stack[|w.stack| - 1].token == t then
        var last := w.stack[|w.stack| - 1];
        var rest := w.stack[..|w.stack| - 1];
        Ok(Walk(rest, w.closed + [ClosedSpan(t, r.time - last.start, |rest|, last.category, r.category, last.index)], w.n))
      else
        Mismatch(t)
  }

  /** The walk over a whole batch: the first rejected end record ends it
      with a mismatch. */
  function Scan(logs: seq<Record>): (o: Outcome<Walk>)
    ensures o.Ok? ==> |o.value.stack| + |o.value.closed| == o.value.n
  {
    if logs == [] then Ok(Start)
    else
      match Scan(logs[..|logs| - 1])
      case Mismatch(t) => Mismatch(t)
      case Ok(w) => Step(w, logs[|logs| - 1])
  }

  /** The blocks left open at the end of the batch, closed in pop order
      against the single timestamp now. */
  function Drain(stack: seq<OpenSpan>, now: real): (d: seq<ClosedSpan>)
    ensures |d| == |stack|
    ensures forall i :: 0 <= i < |d| ==> d[i].closer == d[i].category
  {
    if stack == [] then []
    else
      var last := stack[|stack| - 1];
      [ClosedSpan(last.token, now - last.start, |stack| - 1, last.category, last.category, last.index)]
        + Drain(stack[..|stack| - 1], now)
  }

  /** Every closed block of a batch, in the order the walk closes them. */
  function Spans(logs: seq<Record>, now: real): Outcome<seq<ClosedSpan>>
  {
    match Scan(logs)
    case Mismatch(t) => Mismatch(t)
    case Ok(w) => Ok(w.closed + Drain(w.stack, now))
  }

  // ---------------------------------------------------------------------
  // Reference definitions, independent of the stack

  /** The positions of the begin records of a batch, in order: every begin
      record of the batch, and nothing else, once. */
  function BeginPositions(logs: seq<Record>): seq<nat>
  {
    if logs == [] then []
    else BeginPositions(logs[..|logs| - 1]) + (if Classify(logs[|logs| - 1]).BeginMark? then [|logs| - 1] else [])
  }

  /** Begin records minus end records: the nesting level after the batch. */
  function Level(logs: seq<Record>): int
  {
    if logs == [] then 0
    else
      Level(logs[..|logs| - 1]) +
      match Classify(logs[|logs| - 1])
      case BeginMark(_) => 1
      case EndMark(_) => -1
      case Unmarked => 0
  }

  /** For every begin record, in order, the nesting level just before it. */
  function BeginLevels(logs: seq<Record>): seq<int>
  {
    if logs == [] then []
    else BeginLevels(logs[..|logs| - 1]) + (if Classify(logs[|logs| - 1]).BeginMark? then [Level(logs[..|logs| - 1])] else [])
  }

  /** The nesting level just after record q of the batch. */
  function LevelAfter(logs: seq<Record>, q: nat): int
    requires q < |logs|
  {
    Level(logs[..q + 1])
  }

  /** After position i and before position e the level stays above L. */
  predicate Above(logs: seq<Record>, i: nat, e: nat, L: int)
  {
    e <= |logs| && forall q :: i < q < e ==> LevelAfter(logs, q) > L
  }

  /** Record q is the first after position i to bring the level back down
      to L: it is the one that closes the block a begin record at position
      i opened at level L. */
  predicate ClosesAt(logs: seq<Record>, i: nat, q: nat, L: int)
  {
    i < q < |logs| && LevelAfter(logs, q) == L && Above(logs, i, q, L)
  }

  /** The begin positions are exactly the positions of the begin records,
      in increasing order. */
  lemma {:induction false} BeginPositionsExact(logs: seq<Record>)
    ensures forall k :: 0 <= k < |BeginPositions(logs)| ==>
              BeginPositions(logs)[k] < |logs| && Classify(logs[BeginPositions(logs)[k]]).BeginMark?
    ensures forall i, j :: 0 <= i < j < |BeginPositions(logs)| ==> BeginPositions(logs)[i] < BeginPositions(logs)[j]
    ensures forall q :: 0 <= q < |logs| && Classify(logs[q]).BeginMark? ==> q in BeginPositions(logs)
  {
    if logs != [] {
      var init, last := logs[..|logs| - 1], logs[|logs| - 1];
      BeginPositionsExact(init);
      var bp0 := BeginPositions(init);
      var bp := BeginPositions(logs);
      assert bp == bp0 + (if Classify(last).BeginMark? then [|init|] else []);
      forall k | 0 <= k < |bp0| ensures bp[k] == bp0[k] && logs[bp0[k]] == init[bp0[k]] {
      }
      forall q | 0 <= q < |logs| && Classify(logs[q]).BeginMark? ensures q in bp {
        if q < |init| {
          assert init[q] == logs[q];
          assert q in bp0;
        } else {
          assert bp[|bp0|] == q;
        }
      }
    }
  }

  /** The level recorded for each begin record is the level of the batch
      just before it. */
  lemma {:induction false} BeginLevelsAt(logs: seq<Record>)
    ensures |BeginLevels(logs)| == |BeginPositions(logs)|
    ensures forall k :: 0 <= k < |BeginPositions(logs)| ==>
              BeginPositions(logs)[k] < |logs| && BeginLevels(logs)[k] == Level(logs[..BeginPositions(logs)[k]])
  {
    if logs != [] {
      var init, last := logs[..|logs| - 1], logs[|logs| - 1];
      BeginLevelsAt(init);
      var bp0, lv0 := BeginPositions(init), BeginLevels(init);
      forall k | 0 <= k < |bp0| ensures logs[..bp0[k]] == init[..bp0[k]] {
      }
    }
  }

  /** The records that the walk does not ignore. */
  function Marked(logs: seq<Record>): (m: seq<Record>)
    ensures forall i :: 0 <= i < |m| ==> !Classify(m[i]).Unmarked?
  {
    if logs == [] then []
    else Marked(logs[..|logs| - 1]) + (if Classify(logs[|logs| - 1]).Unmarked? then [] else [logs[|logs| - 1]])
  }

  // ---------------------------------------------------------------------
  // Ignored records and mismatches

  /** A mismatch is final: nothing after the offending end record changes the outcome. */
  lemma {:induction false} MismatchIsFinal(p: seq<Record>, s: seq<Record>)
    requires Scan(p).Mismatch?
    ensures Scan(p + s) == Scan(p)
    decreases |s|
  {
    if s != [] {
      var s' := s[..|s| - 1];
      MismatchIsFinal(p, s');
      assert (p + s)[..|p + s| - 1] == p + s';
    } else {
      assert p + s == p;
    }
  }

  /** The walk over a batch extended by one record takes one more step. */
  lemma ScanAppend(p: seq<Record>, r: Record)
    ensures Scan(p + [r]) == match Scan(p) case Mismatch(t) => Mismatch(t) case Ok(w) => Step(w, r)
  {
    assert (p + [r])[..|p|] == p;
  }

  /** A walk that reached w over p takes one more step for one more record. */
  lemma ScanExtend(p: seq<Record>, w: Walk, r: Record, p': seq<Record>)
    requires Scan(p) == Ok(w) && p' == p + [r]
    ensures Scan(p') == Step(w, r)
  {
    ScanAppend(p, r);
  }

  /** A begin record pushes its token, category and time with the next
      begin index, whatever the walk's state. */
  lemma StepBegin(w: Walk, token: string, category: string, time: real)
    ensures Step(w, Record(BeginMessage(token), ProfileLevel, category, time))
         == Ok(Walk(w.stack + [OpenSpan(token, category, time, w.n)], w.closed, w.n + 1))
  {
    MarkRoundTrip(token, category, time);
  }

  /** An end record whose token is that of the top block pops it and closes
      it with the time since its begin and, as depth, the size of the stack
      left after the pop. */
  lemma StepEnd(w: Walk, token: string, category: string, time: real)
    requires w.stack != [] && w.stack[|w.stack| - 1].token == token
    ensures var last := w.stack[|w.stack| - 1];
            Step(w, Record(EndMessage(token), ProfileLevel, category, time)) == Ok(Walk(
              w.stack[..|w.stack| - 1],
              w.closed + [ClosedSpan(token, time - last.start, |w.stack| - 1, last.category, category, last.index)],
              w.n))
  {
    MarkRoundTrip(token, category, time);
  }

  /** An end record that the walk cannot accept ends the whole batch with a
      mismatch that carries that record's token. */
  lemma {:induction false} MismatchAt(logs: seq<Record>, q: nat)
    requires q < |logs| && Scan(logs[..q]).Ok? && Rejects(Scan(logs[..q]).value, logs[q])
    ensures Scan(logs) == Mismatch(Classify(logs[q]).token)
  {
    ScanAppend(logs[..q], logs[q]);
    assert logs[..q] + [logs[q]] + logs[q + 1..] == logs;
    MismatchIsFinal(logs[..q] + [logs[q]], logs[q + 1..]);
  }

  /** Conversely, a mismatch always has such an end record as its cause. */
  lemma {:induction false} MismatchCause(logs: seq<Record>)
    requires Scan(logs).Mismatch?
    ensures exists q :: 0 <= q < |logs| && Scan(logs[..q]).Ok? && Rejects(Scan(logs[..q]).value, logs[q])
                        && Scan(logs).token == Classify(logs[q]).token
  {
    var init := logs[..|logs| - 1];
    if Scan(init).Mismatch? {
      MismatchCause(init);
      var q :| 0 <= q < |init| && Scan(init[..q]).Ok? && Rejects(Scan(init[..q]).value, init[q])
               && Scan(init).token == Classify(init[q]).token;
      assert init[..q] == logs[..q];
    } else {
      assert logs[..|logs| - 1] == init;
    }
  }

  /** Marked distributes over concatenation. */
  lemma {:induction false} MarkedAppend(a: seq<Record>, b: seq<Record>)
    ensures Marked(a + b) == Marked(a) + Marked(b)
    decreases |b|
  {
    if b == [] {
      assert a + b == a;
    } else {
      var b' := b[..|b| - 1];
      MarkedAppend(a, b');
      assert (a + b)[..|a + b| - 1] == a + b';
      assert (a + b)[|a + b| - 1] == b[|b| - 1];
    }
  }

  /** The walk over a batch equals the walk over its marked records alone:
      records of another level, and records that neither open nor close a
      block, change neither the stack nor the closed blocks nor the counter. */
  lemma {:induction false} MarkedOnly(logs: seq<Record>)
    ensures Scan(Marked(logs)) == Scan(logs)
  {
    if logs != [] {
      var init := logs[..|logs| - 1];
      MarkedOnly(init);
      var m, last := Marked(init), logs[|logs| - 1];
      assert logs[..|logs| - 1] == init;
      if Classify(last).Unmarked? {
        assert Marked(logs) == m;
      } else {
        assert Marked(logs) == m + [last];
        assert (m + [last])[..|m|] == m;
        assert Scan(m + [last]) == match Scan(m) case Mismatch(t) => Mismatch(t) case Ok(w) => Step(w, last);
      }
    }
  }

  /** An ignored record may be dropped from anywhere in a batch. */
  lemma {:induction false} IgnoredAnywhere(p: seq<Record>, r: Record, s: seq<Record>)
    requires Classify(r).Unmarked?
    ensures Scan(p + [r] + s) == Scan(p + s)
  {
    MarkedAppend(p + [r], s);
    MarkedAppend(p, [r]);
    MarkedAppend(p, s);
    assert Marked([r]) == [] by {
      assert [r][..0] == [];
    }
    assert Marked(p + [r]) == Marked(p);
    assert Marked(p + [r] + s) == Marked(p + s);
    MarkedOnly(p + [r] + s);
    MarkedOnly(p + s);
  }

  // ---------------------------------------------------------------------
  // What the stack and the closed blocks hold, in terms of the batch

  /** The open block s sits at stack position j and came from the begin
      record at position bp[s.index] of p, read at level j; no record since
      has brought the level back down to j. */
  ghost predicate OpenedAt(s: OpenSpan, j: int, p: seq<Record>, bp: seq<nat>, lv: seq<int>)
  {
    && s.index < |bp| && s.index < |lv| && bp[s.index] < |p|
    && Classify(p[bp[s.index]]) == BeginMark(s.token)
    && s.category == p[bp[s.index]].category && s.start == p[bp[s.index]].time
    && lv[s.index] == j
    && Above(p, bp[s.index], |p|, j)
  }

  /** The block c came from the begin record at position bp[c.index] of p
      and was closed by the end record that first brought the level back
      down to the one that begin record was read at; that end record has
      its token, and the duration runs from the one to the other. */
  ghost predicate EndedBy(c: ClosedSpan, p: seq<Record>, bp: seq<nat>, lv: seq<int>)
  {
    && c.index < |bp| && c.index < |lv| && bp[c.index] < |p|
    && Classify(p[bp[c.index]]) == BeginMark(c.token) && c.category == p[bp[c.index]].category
    && c.depth == lv[c.index]
    && exists q: nat :: ClosesAt(p, bp[c.index], q, c.depth) && Classify(p[q]) == EndMark(c.token)
                        && c.closer == p[q].category && c.delta == p[q].time - p[bp[c.index]].time
  }

  ghost function StackIndices(stack: seq<OpenSpan>): set<nat>
  {
    set j | 0 <= j < |stack| :: stack[j].index
  }

  ghost function ClosedIndices(closed: seq<ClosedSpan>): set<nat>
  {
    set i | 0 <= i < |closed| :: closed[i].index
  }

  /** The begin indices handed out once n begin records were read. */
  ghost function Below(n: nat): (s: set<nat>)
    ensures forall k: nat :: k in s <==> k < n
  {
    if n == 0 then {} else Below(n - 1) + {n - 1}
  }

  /** Every begin index below n is either on the stack or closed, once:
      the stack holds increasing indices, and no index is closed twice. */
  ghost predicate Indexed(stack: seq<OpenSpan>, closed: seq<ClosedSpan>, n: nat)
  {
    && (forall i, j :: 0 <= i < j < |stack| ==> stack[i].index < stack[j].index)
    && (forall j :: 0 <= j < |stack| ==> stack[j].index < n)
    && (forall i, j :: 0 <= i < j < |closed| ==> closed[i].index != closed[j].index)
    && (forall i, j :: 0 <= i < |closed| && 0 <= j < |stack| ==> closed[i].index != stack[j].index)
    && StackIndices(stack) + ClosedIndices(closed) == Below(n)
  }

  /** The walk w is the one the batch p leads to. */
  ghost predicate Consistent(p: seq<Record>, w: Walk)
  {
    var bp, lv := BeginPositions(p), BeginLevels(p);
    && w.n == |bp| == |lv|
    && |w.stack| == Level(p)
    && |w.stack| + |w.closed| == w.n
    && (forall j :: 0 <= j < |w.stack| ==> OpenedAt(w.stack[j], j, p, bp, lv))
    && (forall i :: 0 <= i < |w.closed| ==> EndedBy(w.closed[i], p, bp, lv))
    && Indexed(w.stack, w.closed, w.n)
  }

  /** The parts of the invariant, put together. */
  lemma Consistency(p: seq<Record>, w: Walk, bp: seq<nat>, lv: seq<int>)
    requires bp == BeginPositions(p) && lv == BeginLevels(p)
    requires w.n == |bp| == |lv| && |w.stack| == Level(p) && |w.stack| + |w.closed| == w.n
    requires forall j :: 0 <= j < |w.stack| ==> OpenedAt(w.stack[j], j, p, bp, lv)
    requires forall i :: 0 <= i < |w.closed| ==> EndedBy(w.closed[i], p, bp, lv)
    requires Indexed(w.stack, w.closed, w.n)
    ensures Consistent(p, w)
  {
  }

  /** One more record leaves the levels after the earlier ones as they were. */
  lemma LevelAfterGrow(p: seq<Record>, r: Record)
    ensures forall q: nat :: q < |p| ==> LevelAfter(p + [r], q) == LevelAfter(p, q)
    ensures LevelAfter(p + [r], |p|) == Level(p + [r])
  {
    forall q: nat | q < |p| ensures LevelAfter(p + [r], q) == LevelAfter(p, q) {
      assert (p + [r])[..q + 1] == p[..q + 1];
    }
    assert (p + [r])[..|p| + 1] == p + [r];
  }

  lemma AboveGrow(p: seq<Record>, r: Record, i: nat, e: nat, L: int)
    requires Above(p, i, e, L)
    ensures Above(p + [r], i, e, L)
  {
    LevelAfterGrow(p, r);
  }

  /** A record that leaves the level above L keeps a block opened at L open. */
  lemma AboveExtend(p: seq<Record>, r: Record, i: nat, L: int)
    requires Above(p, i, |p|, L) && Level(p + [r]) > L
    ensures Above(p + [r], i, |p| + 1, L)
  {
    LevelAfterGrow(p, r);
  }

  lemma {:induction false} EndedByExtends(c: ClosedSpan, p: seq<Record>, r: Record, bp: seq<nat>, lv: seq<int>)
    requires EndedBy(c, p, bp, lv)
    ensures EndedBy(c, p + [r], bp, lv)
  {
    var i := bp[c.index];
    var q: nat :| ClosesAt(p, i, q, c.depth) && Classify(p[q]) == EndMark(c.token)
                  && c.closer == p[q].category && c.delta == p[q].time - p[i].time;
    AboveGrow(p, r, i, q, c.depth);
    LevelAfterGrow(p, r);
    assert (p + [r])[q] == p[q] && (p + [r])[i] == p[i];
    assert ClosesAt(p + [r], i, q, c.depth);
  }

  lemma {:induction false} EndedByGrows(c: ClosedSpan, p: seq<Record>, bp: seq<nat>, lv: seq<int>, bp': seq<nat>, lv': seq<int>)
    requires EndedBy(c, p, bp, lv)
    requires |bp| <= |bp'| && bp'[..|bp|] == bp && |lv| <= |lv'| && lv'[..|lv|] == lv
    ensures EndedBy(c, p, bp', lv')
  {
    assert bp'[c.index] == bp[c.index] && lv'[c.index] == lv[c.index];
  }

  /** Pushing the next begin index keeps the indices in order. */
  lemma IndexedPush(stack: seq<OpenSpan>, closed: seq<ClosedSpan>, n: nat, top: OpenSpan)
    requires Indexed(stack, closed, n) && top.index == n
    ensures Indexed(stack + [top], closed, n + 1)
  {
    var stack' := stack + [top];
    assert StackIndices(stack') == StackIndices(stack) + {n} by {
      assert forall j :: 0 <= j < |stack| ==> stack'[j] == stack[j];
      assert stack'[|stack|].index == n;
    }
    assert Below(n + 1) == Below(n) + {n};
  }

  /** Closing the top block moves its index from the stack to the closed blocks. */
  lemma IndexedPop(stack: seq<OpenSpan>, closed: seq<ClosedSpan>, n: nat, c: ClosedSpan)
    requires Indexed(stack, closed, n) && stack != [] && c.index == stack[|stack| - 1].index
    ensures Indexed(stack[..|stack| - 1], closed + [c], n)
  {
    var rest := stack[..|stack| - 1];
    var closed' := closed + [c];
    assert StackIndices(stack) == StackIndices(rest) + {c.index} by {
      assert forall j :: 0 <= j < |rest| ==> rest[j] == stack[j];
    }
    assert ClosedIndices(closed') == ClosedIndices(closed) + {c.index} by {
      assert forall i :: 0 <= i < |closed| ==> closed'[i] == closed[i];
      assert closed'[|closed|].index == c.index;
    }
  }

  /** An open block stays open, with its begin record, when the batch grows
      by a record that leaves the level above the block's, and by at most
      one begin record. */
  lemma {:induction false} OpenedGrow(s: OpenSpan, j: int, p: seq<Record>, r: Record, bp: seq<nat>, lv: seq<int>, bp': seq<nat>, lv': seq<int>)
    requires OpenedAt(s, j, p, bp, lv) && Level(p + [r]) > j
    requires |bp| <= |bp'| && bp'[..|bp|] == bp && |lv| <= |lv'| && lv'[..|lv|] == lv
    ensures OpenedAt(s, j, p + [r], bp', lv')
  {
    var i := bp[s.index];
    assert bp'[s.index] == i && lv'[s.index] == lv[s.index];
    assert (p + [r])[i] == p[i];
    AboveExtend(p, r, i, j);
  }

  /** The open blocks all stay open under such a record. */
  lemma OpenedAllGrow(stack: seq<OpenSpan>, p: seq<Record>, r: Record, bp: seq<nat>, lv: seq<int>, bp': seq<nat>, lv': seq<int>)
    requires forall j :: 0 <= j < |stack| ==> OpenedAt(stack[j], j, p, bp, lv)
    requires Level(p + [r]) >= |stack|
    requires |bp| <= |bp'| && bp'[..|bp|] == bp && |lv| <= |lv'| && lv'[..|lv|] == lv
    ensures forall j :: 0 <= j < |stack| ==> OpenedAt(stack[j], j, p + [r], bp', lv')
  {
    forall j | 0 <= j < |stack| ensures OpenedAt(stack[j], j, p + [r], bp', lv') {
      OpenedGrow(stack[j], j, p, r, bp, lv, bp', lv');
    }
  }

  /** The closed blocks stay closed by their end records when the batch
      grows by one record and by at most one begin record. */
  lemma EndedAllGrow(closed: seq<ClosedSpan>, p: seq<Record>, r: Record, bp: seq<nat>, lv: seq<int>, bp': seq<nat>, lv': seq<int>)
    requires forall i :: 0 <= i < |closed| ==> EndedBy(closed[i], p, bp, lv)
    requires |bp| <= |bp'| && bp'[..|bp|] == bp && |lv| <= |lv'| && lv'[..|lv|] == lv
    ensures forall i :: 0 <= i < |closed| ==> EndedBy(closed[i], p + [r], bp', lv')
  {
    forall i | 0 <= i < |closed| ensures EndedBy(closed[i], p + [r], bp', lv') {
      EndedByExtends(closed[i], p, r, bp, lv);
      EndedByGrows(closed[i], p + [r], bp, lv, bp', lv');
    }
  }

  /** An ignored record adds no begin record and keeps the level. */
  lemma UnmarkedGrown(p: seq<Record>, r: Record)
    requires Classify(r).Unmarked?
    ensures BeginPositions(p + [r]) == BeginPositions(p) && BeginLevels(p + [r]) == BeginLevels(p)
    ensures Level(p + [r]) == Level(p)
  {
    var p' := p + [r];
    assert p'[..|p'| - 1] == p && p'[|p'| - 1] == r;
  }

  /** An ignored record keeps the walk consistent. */
  lemma {:induction false} UnmarkedConsistent(p: seq<Record>, w: Walk, r: Record)
    requires Consistent(p, w) && Classify(r).Unmarked?
    ensures Consistent(p + [r], w)
  {
    var bp, lv := BeginPositions(p), BeginLevels(p);
    UnmarkedGrown(p, r);
    OpenedAllGrow(w.stack, p, r, bp, lv, bp, lv);
    EndedAllGrow(w.closed, p, r, bp, lv, bp, lv);
  }

  /** A begin record adds its own position, read at the current level, and
      raises the level by one. */
  lemma BeginGrown(p: seq<Record>, r: Record)
    requires Classify(r).BeginMark?
    ensures BeginPositions(p + [r]) == BeginPositions(p) + [|p|]
    ensures BeginLevels(p + [r]) == BeginLevels(p) + [Level(p)]
    ensures Level(p + [r]) == Level(p) + 1
  {
    var p' := p + [r];
    assert p'[..|p'| - 1] == p && p'[|p'| - 1] == r;
  }

  /** Pushing the block of the begin record r keeps the walk consistent
      with the batch grown by r. */
  lemma {:induction false} PushConsistent(p: seq<Record>, stack: seq<OpenSpan>, closed: seq<ClosedSpan>, n: nat, r: Record,
                                          bp: seq<nat>, lv: seq<int>, top: OpenSpan)
    requires bp == BeginPositions(p) && lv == BeginLevels(p)
    requires n == |bp| == |lv| && |stack| == Level(p) && |stack| + |closed| == n
    requires forall j :: 0 <= j < |stack| ==> OpenedAt(stack[j], j, p, bp, lv)
    requires forall i :: 0 <= i < |closed| ==> EndedBy(closed[i], p, bp, lv)
    requires Indexed(stack, closed, n)
    requires Classify(r).BeginMark? && top == OpenSpan(Classify(r).token, r.category, r.time, n)
    ensures Consistent(p + [r], Walk(stack + [top], closed, n + 1))
  {
    var p' := p + [r];
    BeginGrown(p, r);
    var bp', lv' := bp + [|p|], lv + [Level(p)];
    assert bp'[..|bp|] == bp && lv'[..|lv|] == lv;
    OpenedAllGrow(stack, p, r, bp, lv, bp', lv');
    assert OpenedAt(top, |stack|, p', bp', lv') by {
      assert p'[|p|] == r;
    }
    OpenedPush(stack, top, p', bp', lv');
    EndedAllGrow(closed, p, r, bp, lv, bp', lv');
    IndexedPush(stack, closed, n, top);
    Consistency(p', Walk(stack + [top], closed, n + 1), bp', lv');
  }

  /** A begin record pushes a block with the next index at the current level. */
  lemma {:induction false} BeginConsistent(p: seq<Record>, w: Walk, r: Record)
    requires Consistent(p, w) && Classify(r).BeginMark?
    ensures Step(w, r).Ok? && Consistent(p + [r], Step(w, r).value)
  {
    var top := OpenSpan(Classify(r).token, r.category, r.time, w.n);
    OpenWith(w, r, Classify(r).token);
    var w' := Walk(w.stack + [top], w.closed, w.n + 1);
    assert Step(w, r) == Ok(w');
    PushConsistent(p, w.stack, w.closed, w.n, r, BeginPositions(p), BeginLevels(p), top);
    assert Consistent(p + [r], w');
  }

  /** The open blocks with one more pushed on top of them. */
  lemma OpenedPush(stack: seq<OpenSpan>, top: OpenSpan, p: seq<Record>, bp: seq<nat>, lv: seq<int>)
    requires forall j :: 0 <= j < |stack| ==> OpenedAt(stack[j], j, p, bp, lv)
    requires OpenedAt(top, |stack|, p, bp, lv)
    ensures forall j :: 0 <= j < |stack| + 1 ==> OpenedAt((stack + [top])[j], j, p, bp, lv)
  {
    forall j | 0 <= j < |stack| + 1 ensures OpenedAt((stack + [top])[j], j, p, bp, lv) {
      if j < |stack| {
        assert (stack + [top])[j] == stack[j];
      }
    }
  }

  /** The block on top, and the blocks left on the stack after it is
      popped, keep their positions. */
  lemma OpenedPop(stack: seq<OpenSpan>, p: seq<Record>, bp: seq<nat>, lv: seq<int>)
    requires stack != [] && forall j :: 0 <= j < |stack| ==> OpenedAt(stack[j], j, p, bp, lv)
    ensures OpenedAt(stack[|stack| - 1], |stack| - 1, p, bp, lv)
    ensures var rest := stack[..|stack| - 1];
            forall j :: 0 <= j < |rest| ==> OpenedAt(rest[j], j, p, bp, lv)
  {
    var rest := stack[..|stack| - 1];
    forall j | 0 <= j < |rest| ensures OpenedAt(rest[j], j, p, bp, lv) {
      assert rest[j] == stack[j];
    }
  }

  /** The block an end record closes joins the blocks closed before it. */
  lemma EndedAllClose(closed: seq<ClosedSpan>, c: ClosedSpan, p: seq<Record>, r: Record, bp: seq<nat>, lv: seq<int>)
    requires forall i :: 0 <= i < |closed| ==> EndedBy(closed[i], p, bp, lv)
    requires EndedBy(c, p + [r], bp, lv)
    ensures forall i :: 0 <= i < |closed| + 1 ==> EndedBy((closed + [c])[i], p + [r], bp, lv)
  {
    forall i | 0 <= i < |closed| + 1 ensures EndedBy((closed + [c])[i], p + [r], bp, lv) {
      if i < |closed| {
        EndedByExtends(closed[i], p, r, bp, lv);
      }
    }
  }

  /** An end record adds no begin record and lowers the level by one. */
  lemma EndGrown(p: seq<Record>, r: Record)
    requires Classify(r).EndMark?
    ensures BeginPositions(p + [r]) == BeginPositions(p) && BeginLevels(p + [r]) == BeginLevels(p)
    ensures Level(p + [r]) == Level(p) - 1
  {
    var p' := p + [r];
    assert p'[..|p'| - 1] == p && p'[|p'| - 1] == r;
  }

  /** The end record that brings the level back down to that of the top
      block closes it. */
  lemma {:induction false} TopEnded(top: OpenSpan, d: nat, p: seq<Record>, r: Record, bp: seq<nat>, lv: seq<int>)
    requires OpenedAt(top, d, p, bp, lv) && Level(p + [r]) == d
    requires Classify(r) == EndMark(top.token)
    ensures EndedBy(ClosedSpan(top.token, r.time - top.start, d, top.category, r.category, top.index), p + [r], bp, lv)
  {
    var p' := p + [r];
    var i := bp[top.index];
    LevelAfterGrow(p, r);
    AboveGrow(p, r, i, |p|, d);
    assert p'[|p|] == r && p'[i] == p[i];
    assert ClosesAt(p', i, |p|, d);
  }

  /** The end record r closes the top block; the blocks beneath it stay open. */
  lemma PopOpened(stack: seq<OpenSpan>, rest: seq<OpenSpan>, c: ClosedSpan, p: seq<Record>, r: Record, bp: seq<nat>, lv: seq<int>)
    requires forall j :: 0 <= j < |stack| ==> OpenedAt(stack[j], j, p, bp, lv)
    requires stack != [] && Classify(r) == EndMark(stack[|stack| - 1].token)
    requires Level(p + [r]) == |stack| - 1
    requires rest == stack[..|stack| - 1]
    requires c == ClosedSpan(stack[|stack| - 1].token, r.time - stack[|stack| - 1].start, |rest|,
                             stack[|stack| - 1].category, r.category, stack[|stack| - 1].index)
    ensures EndedBy(c, p + [r], bp, lv)
    ensures forall j :: 0 <= j < |rest| ==> OpenedAt(rest[j], j, p + [r], bp, lv)
  {
    OpenedPop(stack, p, bp, lv);
    TopEnded(stack[|stack| - 1], |rest|, p, r, bp, lv);
    OpenedAllGrow(rest, p, r, bp, lv, bp, lv);
  }

  /** Popping the top block and closing it by the end record r keeps the
      walk consistent with the batch grown by r. */
  lemma {:induction false} PopConsistent(p: seq<Record>, stack: seq<OpenSpan>, closed: seq<ClosedSpan>, n: nat, r: Record,
                                         bp: seq<nat>, lv: seq<int>, rest: seq<OpenSpan>, c: ClosedSpan)
    requires bp == BeginPositions(p) && lv == BeginLevels(p)
    requires n == |bp| == |lv| && |stack| == Level(p) && |stack| + |closed| == n
    requires forall j :: 0 <= j < |stack| ==> OpenedAt(stack[j], j, p, bp, lv)
    requires forall i :: 0 <= i < |closed| ==> EndedBy(closed[i], p, bp, lv)
    requires Indexed(stack, closed, n)
    requires stack != [] && Classify(r) == EndMark(stack[|stack| - 1].token)
    requires rest == stack[..|stack| - 1]
    requires c == ClosedSpan(stack[|stack| - 1].token, r.time - stack[|stack| - 1].start, |stack| - 1,
                             stack[|stack| - 1].category, r.category, stack[|stack| - 1].index)
    ensures Consistent(p + [r], Walk(rest, closed + [c], n))
  {
    EndGrown(p, r);
    PopOpened(stack, rest, c, p, r, bp, lv);
    EndedAllClose(closed, c, p, r, bp, lv);
    IndexedPop(stack, closed, n, c);
    Consistency(p + [r], Walk(rest, closed + [c], n), bp, lv);
  }

  /** An accepted end record pops the top block and closes it at the level
      it was opened at. */
  lemma {:induction false} EndConsistent(p: seq<Record>, w: Walk, r: Record)
    requires Consistent(p, w) && Classify(r).EndMark? && !Rejects(w, r)
    ensures Step(w, r).Ok? && Consistent(p + [r], Step(w, r).value)
  {
    var top := w.stack[|w.stack| - 1];
    var rest := w.stack[..|w.stack| - 1];
    var c := ClosedSpan(top.token, r.time - top.start, |w.stack| - 1, top.category, r.category, top.index);
    CloseWith(w, r, top.token);
    var w' := Walk(rest, w.closed + [c], w.n);
    assert Step(w, r) == Ok(w');
    PopConsistent(p, w.stack, w.closed, w.n, r, BeginPositions(p), BeginLevels(p), rest, c);
    assert Consistent(p + [r], w');
  }

  /** The walk over any batch that does not end in a mismatch is consistent with it. */
  lemma {:induction false} ScanConsistent(p: seq<Record>)
    requires Scan(p).Ok?
    ensures Consistent(p, Scan(p).value)
  {
    if p == [] {
      assert Below(0) == {};
    } else {
      var init, r := p[..|p| - 1], p[|p| - 1];
      assert p == init + [r];
      ScanAppend(init, r);
      ScanConsistent(init);
      var w := Scan(init).value;
      match Classify(r)
      case Unmarked => UnmarkedConsistent(init, w, r);
      case BeginMark(_) => BeginConsistent(init, w, r);
      case EndMark(_) => EndConsistent(init, w, r);
    }
  }

  // ---------------------------------------------------------------------
  // The closed blocks of a whole batch

  /** A block closed at the end of the batch: no record after its begin
      record brought the level back down to the one it was read at; it is
      closed against now, at that level, its closer being its own begin
      record's category. */
  ghost predicate ForcedAt(c: ClosedSpan, now: real, p: seq<Record>, bp: seq<nat>, lv: seq<int>)
  {
    && c.index < |bp| && c.index < |lv| && bp[c.index] < |p|
    && Classify(p[bp[c.index]]) == BeginMark(c.token) && c.category == p[bp[c.index]].category
    && c.depth == lv[c.index]
    && Above(p, bp[c.index], |p|, c.depth)
    && c.closer == c.category && c.delta == now - p[bp[c.index]].time
  }

  /** The i-th block closed at the end of the batch is the i-th from the top
      of the stack, at depth the number of blocks beneath it. */
  lemma {:induction false} DrainAt(stack: seq<OpenSpan>, now: real, i: nat)
    requires i < |stack|
    ensures var s := stack[|stack| - 1 - i];
            Drain(stack, now)[i] == ClosedSpan(s.token, now - s.start, |stack| - 1 - i, s.category, s.category, s.index)
  {
    if i > 0 {
      var rest := stack[..|stack| - 1];
      DrainAt(rest, now, i - 1);
      assert rest[|rest| - 1 - (i - 1)] == stack[|stack| - 1 - i];
    }
  }

  /** Closing the top block moves it from the stack to the closed blocks
      without changing what the drain yields overall. */
  lemma DrainStep(closed: seq<ClosedSpan>, stack: seq<OpenSpan>, now: real)
    requires stack != []
    ensures var top := stack[|stack| - 1];
            var c := ClosedSpan(top.token, now - top.start, |stack| - 1, top.category, top.category, top.index);
            (closed + [c]) + Drain(stack[..|stack| - 1], now) == closed + Drain(stack, now)
  {
  }

  /** The block at height j of the stack is closed (j counted from the
      bottom) at position |stack| - 1 - j of the drain, at depth j. */
  lemma DrainOf(stack: seq<OpenSpan>, now: real, j: nat)
    requires j < |stack|
    ensures Drain(stack, now)[|stack| - 1 - j]
            == ClosedSpan(stack[j].token, now - stack[j].start, j, stack[j].category, stack[j].category, stack[j].index)
  {
    DrainAt(stack, now, |stack| - 1 - j);
  }

  /** The blocks closed at the end of the batch carry the stack's indices,
      block k that of stack frame |stack| - 1 - k. */
  lemma DrainIndices(stack: seq<OpenSpan>, now: real)
    ensures var d := Drain(stack, now);
            && (forall i :: 0 <= i < |d| ==> d[i].index == stack[|stack| - 1 - i].index)
            && ClosedIndices(d) == StackIndices(stack)
  {
    var d := Drain(stack, now);
    var m := |stack|;
    forall i | 0 <= i < |d| ensures d[i].index == stack[m - 1 - i].index {
      DrainAt(stack, now, i);
    }
    forall k | k in StackIndices(stack) ensures k in ClosedIndices(d) {
      var j :| 0 <= j < m && stack[j].index == k;
      assert d[m - 1 - j].index == k;
    }
  }

  /** The indices of two runs of closed blocks, one after the other. */
  lemma IndicesConcat(closed: seq<ClosedSpan>, d: seq<ClosedSpan>)
    ensures ClosedIndices(closed + d) == ClosedIndices(closed) + ClosedIndices(d)
  {
    var all := closed + d;
    forall k | k in ClosedIndices(d) ensures k in ClosedIndices(all) {
      var i :| 0 <= i < |d| && d[i].index == k;
      assert all[|closed| + i] == d[i];
    }
    forall k | k in ClosedIndices(closed) ensures k in ClosedIndices(all) {
      var i :| 0 <= i < |closed| && closed[i].index == k;
      assert all[i] == closed[i];
    }
  }

  /** Closing what is left on the stack leaves every index closed exactly once. */
  lemma {:induction false} DrainIndexed(stack: seq<OpenSpan>, closed: seq<ClosedSpan>, n: nat, now: real)
    requires Indexed(stack, closed, n)
    ensures var all := closed + Drain(stack, now);
            && (forall i, j :: 0 <= i < j < |all| ==> all[i].index != all[j].index)
            && ClosedIndices(all) == Below(n)
  {
    var d := Drain(stack, now);
    var all := closed + d;
    var m := |stack|;
    DrainIndices(stack, now);
    forall i, j | 0 <= i < j < |all| ensures all[i].index != all[j].index {
      if j >= |closed| && i >= |closed| {
        assert all[i] == d[i - |closed|] && all[j] == d[j - |closed|];
        assert stack[m - 1 - (j - |closed|)].index < stack[m - 1 - (i - |closed|)].index;
      } else if j >= |closed| {
        assert all[j] == d[j - |closed|];
      }
    }
    IndicesConcat(closed, d);
  }

  /** A block still open at stack height |stack| - 1 - k is closed at the
      end of the batch as the k-th block of the drain. */
  lemma DrainForced(stack: seq<OpenSpan>, p: seq<Record>, bp: seq<nat>, lv: seq<int>, now: real, k: nat)
    requires k < |stack| && OpenedAt(stack[|stack| - 1 - k], |stack| - 1 - k, p, bp, lv)
    ensures ForcedAt(Drain(stack, now)[k], now, p, bp, lv)
  {
    DrainAt(stack, now, k);
  }

  /** Blocks closed by end records, followed by the drain of blocks opened
      by begin records, are each closed one way or the other. */
  lemma SpansCovered(closed: seq<ClosedSpan>, stack: seq<OpenSpan>, p: seq<Record>, bp: seq<nat>, lv: seq<int>, now: real)
    requires forall j :: 0 <= j < |stack| ==> OpenedAt(stack[j], j, p, bp, lv)
    requires forall i :: 0 <= i < |closed| ==> EndedBy(closed[i], p, bp, lv)
    ensures var all := closed + Drain(stack, now);
            forall i :: 0 <= i < |all| ==> EndedBy(all[i], p, bp, lv) || ForcedAt(all[i], now, p, bp, lv)
  {
    var d := Drain(stack, now);
    var all := closed + d;
    forall i | 0 <= i < |all| ensures EndedBy(all[i], p, bp, lv) || ForcedAt(all[i], now, p, bp, lv) {
      if i >= |closed| {
        var k := i - |closed|;
        assert all[i] == d[k];
        DrainForced(stack, p, bp, lv, now, k);
      } else {
        assert all[i] == closed[i];
      }
    }
  }

  /** Every begin record of a batch without a mismatch yields exactly one
      closed block: the blocks have distinct begin indices covering every
      begin record; each carries its begin record's token and category and
      the nesting level at which it was opened; and each was either closed
      by the first record after its begin record to bring the level back
      down to that one, an end record with its token, its duration running
      from begin to end, or, when no record did, closed at the end of the
      batch, its duration running to now. */
  lemma {:induction false} SpansComplete(logs: seq<Record>, now: real)
    requires Spans(logs, now).Ok?
    ensures var all, bp, lv := Spans(logs, now).value, BeginPositions(logs), BeginLevels(logs);
            && |all| == |bp| == |lv| == Scan(logs).value.n
            && (forall i, j :: 0 <= i < j < |all| ==> all[i].index != all[j].index)
            && ClosedIndices(all) == Below(|bp|)
            && (forall i :: 0 <= i < |all| ==> EndedBy(all[i], logs, bp, lv) || ForcedAt(all[i], now, logs, bp, lv))
  {
    ScanConsistent(logs);
    var w := Scan(logs).value;
    DrainIndexed(w.stack, w.closed, w.n, now);
    SpansCovered(w.closed, w.stack, logs, BeginPositions(logs), BeginLevels(logs), now);
  }

  // ---------------------------------------------------------------------
  // A small batch

  /** Begin a, begin b, end b, end a, all in one category. */
  function NestedBatch(a: string, b: string, cat: string, t0: real, t1: real, t2: real, t3: real): seq<Record>
  {
    [Record(BeginMessage(a), ProfileLevel, cat, t0), Record(BeginMessage(b), ProfileLevel, cat, t1),
     Record(EndMessage(b), ProfileLevel, cat, t2), Record(EndMessage(a), ProfileLevel, cat, t3)]
  }

  /** Over any four records classified begin a, begin b, end b, end a, the
      walk closes b (depth 1) and then a (depth 0) and leaves nothing open. */
  lemma NestedWalk(r0: Record, r1: Record, r2: Record, r3: Record, a: string, b: string)
    requires Classify(r0) == BeginMark(a) && Classify(r1) == BeginMark(b)
    requires Classify(r2) == EndMark(b) && Classify(r3) == EndMark(a)
    ensures Scan([r0, r1, r2, r3])
         == Ok(Walk([], [ClosedSpan(b, r2.time - r1.time, 1, r1.category, r2.category, 1),
                         ClosedSpan(a, r3.time - r0.time, 0, r0.category, r3.category, 0)], 2))
  {
    var oa, ob := OpenSpan(a, r0.category, r0.time, 0), OpenSpan(b, r1.category, r1.time, 1);
    var cb := ClosedSpan(b, r2.time - r1.time, 1, r1.category, r2.category, 1);
    var ca := ClosedSpan(a, r3.time - r0.time, 0, r0.category, r3.category, 0);
    var w1, w2, w3 := Walk([oa], [], 1), Walk([oa, ob], [], 2), Walk([oa], [cb], 2);
    OpenWith(Start, r0, a);
    assert Start.stack + [oa] == [oa];
    ScanExtend([], Start, r0, [r0]);
    OpenWith(w1, r1, b);
    assert [oa] + [ob] == [oa, ob];
    ScanExtend([r0], w1, r1, [r0, r1]);
    CloseWith(w2, r2, b);
    assert [oa, ob][..1] == [oa] && [] + [cb] == [cb];
    ScanExtend([r0, r1], w2, r2, [r0, r1, r2]);
    CloseWith(w3, r3, a);
    assert [oa][..0] == [] && [cb] + [ca] == [cb, ca];
    ScanExtend([r0, r1, r2], w3, r3, [r0, r1, r2, r3]);
  }

  /** A record classified as a begin pushes its block. */
  lemma OpenWith(w: Walk, r: Record, t: string)
    requires Classify(r) == BeginMark(t)
    ensures Step(w, r) == Ok(Walk(w.stack + [OpenSpan(t, r.category, r.time, w.n)], w.closed, w.n + 1))
  {
  }

  /** A record classified as the end of the top block pops and closes it. */
  lemma CloseWith(w: Walk, r: Record, t: string)
    requires Classify(r) == EndMark(t) && w.stack != [] && w.stack[|w.stack| - 1].token == t
    ensures Step(w, r) == Ok(Walk(w.stack[..|w.stack| - 1],
                                  w.closed + [ClosedSpan(t, r.time - w.stack[|w.stack| - 1].start, |w.stack| - 1,
                                                         w.stack[|w.stack| - 1].category, r.category, w.stack[|w.stack| - 1].index)], w.n))
  {
  }

  /** The walk over that batch closes b (depth 1) and then a (depth 0) and
      leaves nothing open. */
  lemma NestedScan(a: string, b: string, cat: string, t0: real, t1: real, t2: real, t3: real)
    ensures Scan(NestedBatch(a, b, cat, t0, t1, t2, t3))
         == Ok(Walk([], [ClosedSpan(b, t2 - t1, 1, cat, cat, 1), ClosedSpan(a, t3 - t0, 0, cat, cat, 0)], 2))
  {
    MarkRoundTrip(a, cat, t0);
    MarkRoundTrip(b, cat, t1);
    MarkRoundTrip(b, cat, t2);
    MarkRoundTrip(a, cat, t3);
    NestedWalk(Record(BeginMessage(a), ProfileLevel, cat, t0), Record(BeginMessage(b), ProfileLevel, cat, t1),
               Record(EndMessage(b), ProfileLevel, cat, t2), Record(EndMessage(a), ProfileLevel, cat, t3), a, b);
  }
}
