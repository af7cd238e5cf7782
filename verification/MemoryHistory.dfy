/** What a record of the in-memory ledger says, read off the successful calls on its run
    since it was last inserted. */
module MemoryHistory {
  import opened Records
  import opened MemoryLedger
  import opened RecordHistory

  /** The successful calls on a resident run since it was last inserted. */
  function CallsSinceInsertion(max: nat, ops: seq<Op>, r: string): seq<Op>
    requires max >= 1
    decreases |ops|
  {
    if ops == [] then []
    else
      var (s, op, wrote) := LastCall(max, ops);
      var before := CallsSinceInsertion(max, ops[..|ops| - 1], r);
      if op.runId != r || !wrote then before
      else if r !in s.records then [op]
      else before + [op]
  }

  // ---- The place of a run -----------------------------------------------------

  /** A start drops the cursor, so only what was recorded after the last one counts. */
  function AttemptSinceStart(op: Op): Option<Option<PhaseChange>> {
    if op.Start? then Some(None) else AttemptSet(op)
  }

  function SuccessSinceStart(op: Op): Option<Option<Label>> {
    if op.Start? then Some(None) else SuccessSet(op)
  }

  /** The legacy phase survives a start: it is what the last recorded phase left. */
  function LegacyPhase(ops: seq<Op>): Option<Label> {
    if ops == [] then None
    else
      var last := ops[|ops| - 1];
      if last.Update? && last.change.Some?
      then Some(Or(Latest(ops, SuccessSinceStart, None), Some(last.change.value.phase)).value)
      else LegacyPhase(ops[..|ops| - 1])
  }

  ghost predicate TellsCursor(rec: RunRecord, ops: seq<Op>) {
    var checkpoint := Latest(ops, SuccessSinceStart, None);
    && checkpoint != Some(NO_LABEL)
    && match Latest(ops, AttemptSinceStart, None)
       case None => rec.cursor.None? && checkpoint.None?
       case Some(change) =>
         rec.cursor == Some(PhaseCursor(change.phase, checkpoint,
                                        if Succeeded(change.outcome) then None else Some(change.phase),
                                        change.attempt, change.outcome))
  }

  // ---- Its cost ---------------------------------------------------------------

  /** A stamp sets a cost field, a state change forgets it, a start keeps it. */
  function Stamped<T>(ops: seq<Op>, field: Cost -> Option<T>): Option<T> {
    if ops == [] then None
    else
      var before, last := Stamped(ops[..|ops| - 1], field), ops[|ops| - 1];
      if last.Start? then before
      else if last.Update? then None
      else Or(field(last.cost), before)
  }

  ghost predicate TellsCost(c: Cost, ops: seq<Op>) {
    && c.totalTokens == Stamped(ops, TokensOf) && c.totalCostUsd == Stamped(ops, UsdOf)
    && c.totalElapsedS == Stamped(ops, SecondsOf) && c.byTask == Stamped(ops, ByTaskOf)
  }

  ghost predicate MemoryTells(rec: RunRecord, ops: seq<Op>) {
    && rec.revision == |ops| && TellsFields(rec, ops)
    && TellsCursor(rec, ops) && rec.phase == LegacyPhase(ops) && TellsCost(rec.cost, ops)
  }

  // ---- One call -----------------------------------------------------------------

  /** What a successful call makes of a record it finds. */
  ghost predicate Leaves(rec: RunRecord, op: Op, after: RunRecord) {
    match op
    case Start(_, _, _, _) => after == MemoryLedger.StartRecord(Some(rec), op)
    case Update(_, state, change, ctx, _, _) =>
      after == Transition(rec, state, change, ctx) && (change.Some? ==> change.value.phase != NO_LABEL)
    case Attribute(_, cost, _) => after == rec.(revision := rec.revision + 1, cost := OverlayCost(cost, rec.cost))
  }

  lemma {:induction false} LeavesFields(rec: RunRecord, ops: seq<Op>, op: Op, after: RunRecord)
    requires TellsFields(rec, ops) && Leaves(rec, op, after)
    ensures TellsFields(after, ops + [op])
  {
    LatestSnoc(ops, op, StateSet, Pending);
    LatestSnoc(ops, op, RepositorySet, "");
    LatestSnoc(ops, op, KeySet, "");
    LatestSnoc(ops, op, DescriptionSet, None);
    LatestSnoc(ops, op, ContextSet, None);
  }

  lemma {:induction false} LeavesPlace(rec: RunRecord, ops: seq<Op>, op: Op, after: RunRecord)
    requires TellsCursor(rec, ops) && rec.phase == LegacyPhase(ops) && Leaves(rec, op, after)
    ensures TellsCursor(after, ops + [op]) && after.phase == LegacyPhase(ops + [op])
  {
    LatestSnoc(ops, op, AttemptSinceStart, None);
    LatestSnoc(ops, op, SuccessSinceStart, None);
    assert (ops + [op])[..|ops|] == ops;
  }

  lemma {:induction false} StampedSnoc<T>(ops: seq<Op>, op: Op, field: Cost -> Option<T>)
    ensures Stamped(ops + [op], field) ==
            if op.Start? then Stamped(ops, field) else if op.Update? then None else Or(field(op.cost), Stamped(ops, field))
  {
    assert (ops + [op])[..|ops|] == ops;
  }

  lemma {:induction false} LeavesCost(rec: RunRecord, ops: seq<Op>, op: Op, after: RunRecord)
    requires TellsCost(rec.cost, ops) && Leaves(rec, op, after)
    ensures TellsCost(after.cost, ops + [op])
  {
    StampedSnoc(ops, op, TokensOf);
    StampedSnoc(ops, op, UsdOf);
    StampedSnoc(ops, op, SecondsOf);
    StampedSnoc(ops, op, ByTaskOf);
  }

  lemma {:induction false} InsertionTells(op: Op)
    requires op.Start?
    ensures MemoryTells(MemoryLedger.StartRecord(None, op), [op])
  {
    FirstStartTells(op);
    LatestSnoc([], op, AttemptSinceStart, None);
    LatestSnoc([], op, SuccessSinceStart, None);
    StampedSnoc([], op, TokensOf);
    StampedSnoc([], op, UsdOf);
    StampedSnoc([], op, SecondsOf);
    StampedSnoc([], op, ByTaskOf);
    assert [] + [op] == [op] && [op][..0] == [];
  }

  lemma WrittenLeaves(s: Store, max: nat, op: Op)
    requires Valid(s, max) && MemoryLedger.Apply(s, max, op).response.Written?
    ensures op.runId in Next(s, max, op).records
    ensures if op.runId in s.records then Leaves(s.records[op.runId], op, Next(s, max, op).records[op.runId])
            else op.Start? && Next(s, max, op).records[op.runId] == MemoryLedger.StartRecord(None, op)
  {
    WrittenAdvances(s, max, op);
    if op.Start? {
      StartOrder(s, max, op);
    }
  }

  lemma {:induction false} OneCallTells(s: Store, max: nat, op: Op, ops: seq<Op>)
    requires Valid(s, max) && MemoryLedger.Apply(s, max, op).response.Written?
    requires op.runId in s.records ==> MemoryTells(s.records[op.runId], ops)
    ensures var t := Next(s, max, op);
            && op.runId in t.records
            && MemoryTells(t.records[op.runId], if op.runId in s.records then ops + [op] else [op])
  {
    WrittenLeaves(s, max, op);
    if op.runId in s.records {
      var rec, after := s.records[op.runId], Next(s, max, op).records[op.runId];
      LeavesFields(rec, ops, op, after);
      LeavesPlace(rec, ops, op, after);
      LeavesCost(rec, ops, op, after);
    } else {
      InsertionTells(op);
    }
  }

  /** Over any history of calls: the revision of a resident run is the number of successful
      calls on it since it was inserted, and every field of its record is what the last of
      them that sets it says.  A start drops the cursor; the legacy phase stays. */
  lemma {:induction false} MemoryRecordsTellTheirCalls(max: nat, ops: seq<Op>, r: string)
    requires max >= 1
    ensures r in Run(max, ops).records ==> MemoryTells(Run(max, ops).records[r], CallsSinceInsertion(max, ops, r))
    decreases |ops|
  {
    if ops != [] {
      var init := ops[..|ops| - 1];
      var (s, op, wrote) := LastCall(max, ops);
      MemoryRecordsTellTheirCalls(max, init, r);
      if wrote && op.runId == r {
        assert MemoryLedger.Apply(s, max, op).response.Written?;
        OneCallTells(s, max, op, CallsSinceInsertion(max, init, r));
      }
    }
  }
}
