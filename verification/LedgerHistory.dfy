/** Whole histories of the durable ledger: replay refines the live index, revisions
    have no gaps, and a guarded revision has one winner. */
module LedgerHistory {
  import opened Records
  import opened FileLedger

  // ---- Histories ------------------------------------------------------------

  datatype Ledger = Ledger(index: Index, lines: seq<Line>)

  const EMPTY := Ledger(map[], [])

  /** A ledger call, or a restart that rebuilds the index from the log. */
  datatype Event = Call(op: Op) | Reopen

  function Lines(w: Option<Line>): seq<Line> {
    if w.Some? then [w.value] else []
  }

  function Step(s: Ledger, e: Event): Ledger {
    match e
    case Call(op) => var a := Apply(s.index, op); Ledger(a.index, s.lines + Lines(a.written))
    case Reopen => Ledger(Replay(map[], s.lines), s.lines)
  }

  function Run(s: Ledger, es: seq<Event>): Ledger
    decreases |es|
  {
    if es == [] then s else Run(Step(s, es[0]), es[1..])
  }

  lemma {:induction false} RunConcat(s: Ledger, a: seq<Event>, b: seq<Event>)
    ensures Run(s, a + b) == Run(Run(s, a), b)
    decreases |a|
  {
    if a == [] {
      assert a + b == b;
    } else {
      assert (a + b)[1..] == a[1..] + b;
      RunConcat(Step(s, a[0]), a[1..], b);
    }
  }

  /** The calls among the events, in order. */
  function CallsIn(es: seq<Event>): seq<Op> {
    if es == [] then [] else (if es[0].Call? then [es[0].op] else []) + CallsIn(es[1..])
  }

  lemma {:induction false} CallsInConcat(a: seq<Event>, b: seq<Event>)
    ensures CallsIn(a + b) == CallsIn(a) + CallsIn(b)
  {
    if a == [] {
      assert a + b == b;
    } else {
      assert (a + b)[1..] == a[1..] + b;
      CallsInConcat(a[1..], b);
      var first := if a[0].Call? then [a[0].op] else [];
      assert first + (CallsIn(a[1..]) + CallsIn(b)) == (first + CallsIn(a[1..])) + CallsIn(b);
    }
  }

  // ---- Replay refines the live index ----------------------------------------

  /** A cost field that the live record holds is the one replay rebuilds. */
  ghost predicate CostKept(live: Cost, replayed: Cost) {
    && (live.totalTokens.Some? ==> replayed.totalTokens == live.totalTokens)
    && (live.totalCostUsd.Some? ==> replayed.totalCostUsd == live.totalCostUsd)
    && (live.totalElapsedS.Some? ==> replayed.totalElapsedS == live.totalElapsedS)
    && (live.byTask.Some? ==> replayed.byTask == Some(CoerceByTask(live.byTask.value)))
  }

  /** Equal in every field but the cost. */
  ghost predicate SameBut(live: RunRecord, replayed: RunRecord) {
    replayed.(cost := live.cost) == live
  }

  ghost predicate WellFormed(r: string, rec: RunRecord) {
    rec.runId == r && r != "" && rec.repository != "" && rec.revision >= 1 && NonNegative(rec.cost)
  }

  ghost predicate Agrees(r: string, live: RunRecord, replayed: RunRecord) {
    && WellFormed(r, live) && WellFormed(r, replayed)
    && (replayed.cost.byTask.Some? ==> CleanByTask(replayed.cost.byTask.value))
    && SameBut(live, replayed)
    && CostKept(live.cost, replayed.cost)
  }

  ghost predicate Refines(s: Ledger) {
    var replayed := Replay(map[], s.lines);
    && s.index.Keys == replayed.Keys
    && forall r | r in s.index :: Agrees(r, s.index[r], replayed[r])
  }

  lemma CoerceClean(b: ByTask)
    ensures CleanByTask(CoerceByTask(b))
    ensures CoerceByTask(b) == b <==> CleanByTask(b)
  {
    var c := CoerceByTask(b);
    if CleanByTask(b) {
      assert c.Keys == b.Keys;
      forall t | t in b ensures c[t] == b[t] {
        assert c[t].Keys == b[t].Keys;
      }
    }
    if c == b {
      forall t | t in b ensures "" !in b[t] { assert "" !in c[t]; }
    }
  }

  /** One written line keeps the agreement of the record it is about. */
  lemma WriteAgrees(index: Index, op: Op, replayed: Option<RunRecord>)
    requires Apply(index, op).written.Some?
    requires replayed.Some? <==> op.runId in index
    requires replayed.Some? ==> Agrees(op.runId, index[op.runId], replayed.value)
    ensures var a := Apply(index, op);
            && a.written.value.runId == op.runId != ""
            && (a.written.value.kind == TransitionLine ==> replayed.Some?)
            && Agrees(op.runId, a.index[op.runId], ReplayRecord(replayed, a.written.value))
  {
    var l := Apply(index, op).written.value;
    if l.cost.byTask.Some? { CoerceClean(l.cost.byTask.value); }
  }

  /** A call that writes changes one run and appends one line; any other call
      changes nothing. */
  lemma ApplyShape(index: Index, op: Op)
    ensures var a := Apply(index, op);
            if a.response.Written?
            then a.written.Some? && a.index == index[op.runId := a.response.record]
            else a.written.None? && a.index == index
  {
  }

  lemma PutRefines(s: Ledger, l: Line, rec: RunRecord)
    requires Refines(s)
    requires l.runId != "" && (l.kind == TransitionLine ==> l.runId in s.index)
    requires Agrees(l.runId, rec, ReplayRecord(Find(Replay(map[], s.lines), l.runId), l))
    ensures Refines(Ledger(s.index[l.runId := rec], s.lines + [l]))
  {
    ReplayAppend(map[], s.lines, l);
  }

  lemma StepRefines(s: Ledger, op: Op)
    requires Refines(s)
    ensures Refines(Step(s, Call(op)))
  {
    var a := Apply(s.index, op);
    ApplyShape(s.index, op);
    if a.written.Some? {
      WriteAgrees(s.index, op, Find(Replay(map[], s.lines), op.runId));
      PutRefines(s, a.written.value, a.response.record);
    } else {
      assert s.lines + [] == s.lines;
    }
  }

  lemma ReopenRefines(s: Ledger)
    requires Refines(s)
    ensures Refines(Step(s, Reopen))
  {
    var replayed := Replay(map[], s.lines);
    forall r | r in replayed && replayed[r].cost.byTask.Some?
      ensures CoerceByTask(replayed[r].cost.byTask.value) == replayed[r].cost.byTask.value
    {
      CoerceClean(replayed[r].cost.byTask.value);
    }
  }

  lemma StepStaysRefined(s: Ledger, e: Event)
    requires Refines(s)
    ensures Refines(Step(s, e))
  {
    match e
    case Call(op) => StepRefines(s, op);
    case Reopen => ReopenRefines(s);
  }

  /** Over any history of calls and restarts, replaying the log rebuilds the live
      index: the same runs, the same value in every field but the cost, and every
      cost value the live record still holds. */
  lemma {:induction false} ReplayRefinesLive(s: Ledger, es: seq<Event>)
    requires Refines(s)
    ensures Refines(Run(s, es))
    decreases |es|
  {
    if es != [] {
      StepStaysRefined(s, es[0]);
      ReplayRefinesLive(Step(s, es[0]), es[1..]);
    }
  }

  // ---- Where the live index and its replay part -----------------------------

  /** When the written record is also what replay makes of the written line. */
  predicate KeepsAgreement(index: Index, op: Op) {
    match op
    case Start(_, _, _, _) => true
    case Update(r, _, _, _, _, _) => r in index && index[r].cost == NO_COST
    case Attribute(_, cost, _) => cost.byTask.Some? ==> CleanByTask(cost.byTask.value)
  }

  lemma RecordAgreementIff(index: Index, op: Op)
    requires Apply(index, op).response.Written?
    requires op.runId in index ==>
               && WellFormed(op.runId, index[op.runId])
               && (index[op.runId].cost.byTask.Some? ==> CleanByTask(index[op.runId].cost.byTask.value))
    ensures var a := Apply(index, op);
            && a.written.Some? && a.written.value.runId == op.runId != ""
            && (a.written.value.kind == TransitionLine ==> op.runId in index)
            && (ReplayRecord(Find(index, op.runId), a.written.value) == a.response.record
                <==> KeepsAgreement(index, op))
  {
    var l := Apply(index, op).written.value;
    if l.cost.byTask.Some? { CoerceClean(l.cost.byTask.value); }
  }

  /** From full agreement, a start keeps it always, a state change exactly when the
      record carried no cost, an attribution exactly when its breakdown names no
      empty task or axis. */
  lemma FullAgreementIff(s: Ledger, op: Op)
    requires Refines(s)
    requires Find(s.index, op.runId) == Find(Replay(map[], s.lines), op.runId)
    requires Apply(s.index, op).response.Written?
    ensures var t := Step(s, Call(op));
            Find(t.index, op.runId) == Find(Replay(map[], t.lines), op.runId)
            <==> KeepsAgreement(s.index, op)
  {
    ApplyShape(s.index, op);
    RecordAgreementIff(s.index, op);
    ReplayAppend(map[], s.lines, Apply(s.index, op).written.value);
  }

  /** Stamping a cost and then completing the run: the live record forgets the
      stamp, a restart brings it back. */
  lemma CompletionForgetsCost(r: string, repository: string)
    requires r != "" && repository != ""
    ensures var stamp := NO_COST.(totalTokens := Some(5));
            var es := [Call(Start(r, repository, "", None)), Call(Attribute(r, stamp, None)),
                       Call(MarkOp(r, Complete))];
            var live, reopened := Run(EMPTY, es), Run(EMPTY, es + [Reopen]);
            && r in live.index && live.index[r].cost == NO_COST
            && r in reopened.index && reopened.index[r].cost == stamp
  {
    var stamp := NO_COST.(totalTokens := Some(5));
    var e0, e1, e2 := Call(Start(r, repository, "", None)), Call(Attribute(r, stamp, None)), Call(MarkOp(r, Complete));
    var s1 := Step(EMPTY, e0);
    var s2 := Step(s1, e1);
    var s3 := Step(s2, e2);
    assert [e0, e1, e2][1..] == [e1, e2] && [e1, e2][1..] == [e2];
    assert Run(EMPTY, [e0, e1, e2]) == Run(s1, [e1, e2]) == Run(s2, [e2]) == s3;
    RunConcat(EMPTY, [e0, e1, e2], [Reopen]);
    assert Run(s3, [Reopen]) == Step(s3, Reopen);
    ReplayAppend(map[], s1.lines, s2.lines[1]);
    ReplayAppend(map[], s2.lines, s3.lines[2]);
    assert Replay(map[], [s1.lines[0]]) == ReplayLine(map[], s1.lines[0]);
  }

  // ---- Revisions and compare-and-swap ---------------------------------------

  function Revision(s: Ledger, r: string): nat {
    if r in s.index then s.index[r].revision else 0
  }

  /** The revision numbers on the log lines of one run, in log order. */
  function RevisionsOf(lines: seq<Line>, r: string): seq<nat> {
    if lines == [] then []
    else
      var last := lines[|lines| - 1];
      RevisionsOf(lines[..|lines| - 1], r) + if last.runId == r then [last.revision] else []
  }

  function OneTo(n: nat): (s: seq<nat>)
    ensures |s| == n && forall i | 0 <= i < n :: s[i] == i + 1
  {
    seq(n, i => i + 1)
  }

  /** The log numbers the lines of run `r` up to the live revision. */
  ghost predicate Numbered(s: Ledger, r: string) {
    RevisionsOf(s.lines, r) == OneTo(Revision(s, r))
  }

  /** A successful call raises the run's revision by one, in the index and on the line. */
  lemma WriteBumpsRevision(s: Ledger, op: Op)
    requires Refines(s)
    requires Apply(s.index, op).response.Written?
    ensures var a := Apply(s.index, op);
            && a.written.Some? && a.written.value.runId == op.runId
            && a.written.value.revision == a.response.record.revision == Revision(s, op.runId) + 1
  {
  }

  /** A fresh ledger is where every history may begin. */
  lemma EmptyLedger(r: string)
    ensures Refines(EMPTY) && Numbered(EMPTY, r)
  {
    assert RevisionsOf(EMPTY.lines, r) == [] && Revision(EMPTY, r) == 0;
  }

  lemma PutNumbered(s: Ledger, l: Line, rec: RunRecord, r: string)
    requires Numbered(s, r)
    requires l.revision == rec.revision == Revision(s, l.runId) + 1
    ensures Numbered(Ledger(s.index[l.runId := rec], s.lines + [l]), r)
  {
    assert (s.lines + [l])[..|s.lines|] == s.lines;
    assert l.runId == r ==> OneTo(Revision(s, r)) + [l.revision] == OneTo(l.revision);
  }

  /** What one event does to the revision of a run. */
  lemma StepRevision(s: Ledger, e: Event, r: string)
    requires Refines(s)
    ensures var wins := e.Call? && e.op.runId == r && Apply(s.index, e.op).response.Written?;
            Revision(Step(s, e), r) == Revision(s, r) + if wins then 1 else 0
  {
    if e.Call? {
      ApplyShape(s.index, e.op);
      if Apply(s.index, e.op).response.Written? {
        WriteBumpsRevision(s, e.op);
      }
    }
  }

  lemma StepNumbered(s: Ledger, e: Event, r: string)
    requires Refines(s) && Numbered(s, r)
    ensures Numbered(Step(s, e), r)
  {
    if e.Call? && Apply(s.index, e.op).response.Written? {
      var a := Apply(s.index, e.op);
      ApplyShape(s.index, e.op);
      WriteBumpsRevision(s, e.op);
      PutNumbered(s, a.written.value, a.response.record, r);
    } else {
      StepRevision(s, e, r);
      if e.Call? { ApplyShape(s.index, e.op); }
      assert s.lines + [] == s.lines;
    }
  }

  /** The log numbers every run 1, 2, 3, ... without a gap, and the live revision is the
      last number. */
  lemma {:induction false} RevisionsHaveNoGaps(s: Ledger, es: seq<Event>, r: string)
    requires Refines(s) && Numbered(s, r)
    ensures Numbered(Run(s, es), r)
    decreases |es|
  {
    if es != [] {
      StepNumbered(s, es[0], r);
      StepStaysRefined(s, es[0]);
      RevisionsHaveNoGaps(Step(s, es[0]), es[1..], r);
    }
  }

  /** No history lowers a revision. */
  lemma {:induction false} RevisionNeverDrops(s: Ledger, es: seq<Event>, r: string)
    requires Refines(s)
    ensures Revision(s, r) <= Revision(Run(s, es), r)
    decreases |es|
  {
    if es != [] {
      StepRevision(s, es[0], r);
      StepStaysRefined(s, es[0]);
      RevisionNeverDrops(Step(s, es[0]), es[1..], r);
    }
  }

  lemma StaleGuardFails(index: Index, op: Op, n: int)
    requires Guarded(op, n) && op.runId in index && index[op.runId].revision != n
    ensures Apply(index, op).response.Conflict? || Apply(index, op).response.Invalid?
  {
  }

  lemma WinnerExpectsRevision(s: Ledger, op: Op, n: int)
    requires Guarded(op, n) && Apply(s.index, op).response.Written?
    ensures op.runId in s.index && Revision(s, op.runId) == n
  {
  }

  /** Two guarded calls on one ledger that expect the same revision of the same run never
      both succeed, whatever happens in between, restarts included. */
  lemma OneWinnerPerRevision(s: Ledger, first: Op, between: seq<Event>, second: Op, n: int)
    requires Refines(s)
    requires Guarded(first, n) && Guarded(second, n) && first.runId == second.runId
    requires Apply(s.index, first).response.Written?
    ensures var t := Run(Step(s, Call(first)), between);
            var response := Apply(t.index, second).response;
            response.Conflict? || response.Invalid?
  {
    WinnerExpectsRevision(s, first, n);
    StepRevision(s, Call(first), first.runId);
    StepStaysRefined(s, Call(first));
    RevisionNeverDrops(Step(s, Call(first)), between, first.runId);
    StaleGuardFails(Run(Step(s, Call(first)), between).index, second, n);
  }

  /** A call that only its revision guard can refuse. */
  predicate MeetsOtherGuards(op: Op, rec: RunRecord) {
    match op
    case Start(_, _, _, _) => true
    case Update(_, _, change, _, _, expectedState) =>
      && (change.Some? ==> change.value.phase != NO_LABEL && change.value.attempt >= 0)
      && (expectedState.Some? ==> expectedState.value == rec.state)
    case Attribute(_, cost, _) => NonNegative(cost)
  }

  /** Which calls are refused, and how.  An empty phase is refused before anything else; then
      an unknown run; then a guard that does not hold, with the record's own revision and
      state; and last a negative attempt or amount. */
  lemma RefusedIff(index: Index, op: Op)
    requires !op.Start?
    ensures var r, response := op.runId, Apply(index, op).response;
            var noPhase := op.Update? && op.change.Some? && op.change.value.phase == NO_LABEL;
            var stale := r in index &&
                         ((op.expectedRevision.Some? && op.expectedRevision.value != index[r].revision) ||
                          (op.Update? && op.expectedState.Some? && op.expectedState.value != index[r].state));
            var negative := if op.Update? then op.change.Some? && op.change.value.attempt < 0 else !NonNegative(op.cost);
            && (response == UnknownRun <==> !noPhase && r !in index)
            && (response.Conflict? <==> !noPhase && stale)
            && (response.Conflict? ==> response == Conflict(index[r].revision, index[r].state))
            && (response == Invalid <==> noPhase || (r in index && !stale && negative))
            && (response.Written? <==> !noPhase && r in index && !stale && !negative)
  {
  }

  /** Two ledger objects on one log: each has read it once and goes by its own index.  After
      a win on the first, a call on the second that expects the same revision wins too if
      and only if the second index still has that revision; the log then carries the
      next revision twice. */
  lemma SecondLedgerWinsIff(one: Index, two: Index, lines: seq<Line>, first: Op, second: Op, n: int)
    requires Guarded(first, n) && Guarded(second, n) && first.runId == second.runId
    requires Apply(one, first).response.Written?
    requires first.runId in one ==> one[first.runId].runId == first.runId
    requires second.runId in two ==> two[second.runId].runId == second.runId
    ensures var r, a, b := first.runId, Apply(one, first), Apply(two, second);
            && (b.response.Written? <==> r in two && two[r].revision == n && MeetsOtherGuards(second, two[r]))
            && (b.response.Written? ==>
                  RevisionsOf(lines + Lines(a.written) + Lines(b.written), r) == RevisionsOf(lines, r) + [n + 1, n + 1])
  {
    var a, b := Apply(one, first), Apply(two, second);
    var after := lines + Lines(a.written);
    assert after[..|lines|] == lines;
    if b.response.Written? {
      assert (after + Lines(b.written))[..|after|] == after;
      assert RevisionsOf(lines, first.runId) + [n + 1] + [n + 1] == RevisionsOf(lines, first.runId) + [n + 1, n + 1];
    }
  }
}
