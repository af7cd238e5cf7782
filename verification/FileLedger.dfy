/** The durable ledger: an append-only event log with a live index. */
module FileLedger {
  import opened Records

  datatype LineKind = StartLine | TransitionLine

  /** One decoded log line.  An absent JSON key is `None` (or the empty string). */
  datatype Line = Line(
    kind: LineKind,
    runId: string,
    state: RunState,
    repository: string,
    idempotencyKey: string,
    revision: nat,
    phase: Option<Label>,
    ctx: Option<RunContext>,
    featureDescription: Option<string>,
    cursor: Option<PhaseCursor>,
    cost: Cost)

  type Index = map<string, RunRecord>

  // ---- Replay ---------------------------------------------------------------

  /** The loader drops tasks with an empty id and axes with an empty name. */
  function CoerceByTask(b: ByTask): ByTask {
    map t | t in b && t != "" :: map a | a in b[t] && a != "" :: b[t][a]
  }

  predicate CleanByTask(b: ByTask) {
    "" !in b && forall t | t in b :: "" !in b[t]
  }

  function CoerceCost(c: Cost): Cost {
    Cost(
      if c.totalTokens.Some? && c.totalTokens.value >= 0 then c.totalTokens else None,
      if c.totalCostUsd.Some? && c.totalCostUsd.value >= 0.0 then c.totalCostUsd else None,
      if c.totalElapsedS.Some? && c.totalElapsedS.value >= 0.0 then c.totalElapsedS else None,
      if c.byTask.Some? then Some(CoerceByTask(c.byTask.value)) else None)
  }

  /** A transition line's cost field wins only when it is present. */
  function CarryCost(line: Cost, rec: Cost): Cost {
    var c := CoerceCost(line);
    Cost(if line.totalTokens.Some? then c.totalTokens else rec.totalTokens,
         if line.totalCostUsd.Some? then c.totalCostUsd else rec.totalCostUsd,
         if line.totalElapsedS.Some? then c.totalElapsedS else rec.totalElapsedS,
         if line.byTask.Some? then c.byTask else rec.byTask)
  }

  /** The record a decoded line leaves behind; a transition needs a prior record. */
  function ReplayRecord(prior: Option<RunRecord>, l: Line): RunRecord
    requires l.kind == TransitionLine ==> prior.Some?
  {
    match l.kind
    case StartLine =>
      RunRecord(
        l.runId, l.state, l.repository, l.idempotencyKey,
        if l.revision != 0 then l.revision else 1,
        l.phase, l.ctx, l.featureDescription, l.cursor, CoerceCost(l.cost))
    case TransitionLine =>
      var rec := prior.value;
      RunRecord(
        l.runId, l.state, rec.repository, rec.idempotencyKey,
        if l.revision != 0 then l.revision else rec.revision + 1,
        Or(l.phase, rec.phase), Or(l.ctx, rec.ctx), rec.featureDescription,
        Or(l.cursor, rec.cursor), CarryCost(l.cost, rec.cost))
  }

  function Find(index: Index, runId: string): Option<RunRecord> {
    if runId in index then Some(index[runId]) else None
  }

  function ReplayLine(index: Index, l: Line): Index {
    var prior := Find(index, l.runId);
    if l.runId == "" || (l.kind == TransitionLine && prior.None?) then index
    else index[l.runId := ReplayRecord(prior, l)]
  }

  function Replay(index: Index, lines: seq<Line>): Index
    decreases |lines|
  {
    if lines == [] then index else Replay(ReplayLine(index, lines[0]), lines[1..])
  }

  lemma {:induction false} ReplayAppend(index: Index, lines: seq<Line>, l: Line)
    ensures Replay(index, lines + [l]) == ReplayLine(Replay(index, lines), l)
    decreases |lines|
  {
    if lines == [] {
      assert Replay(index, [l]) == Replay(ReplayLine(index, l), []);
    } else {
      assert (lines + [l])[1..] == lines[1..] + [l];
      ReplayAppend(ReplayLine(index, lines[0]), lines[1..], l);
    }
  }

  // ---- Operations -----------------------------------------------------------

  datatype Effect = Effect(index: Index, written: Option<Line>, response: Response)

  function StartRecord(existing: Option<RunRecord>, op: Op): RunRecord
    requires op.Start?
  {
    if existing.Some? then
      var prev := existing.value;
      RunRecord(op.runId, Running, op.repository, op.key, prev.revision + 1,
                prev.phase, prev.ctx, Or(op.description, prev.featureDescription), prev.cursor, prev.cost)
    else
      RunRecord(op.runId, Running, op.repository, op.key, 1,
                None, None, op.description, None, NO_COST)
  }

  function StartLineOf(rec: RunRecord): Line {
    Line(StartLine, rec.runId, Running, rec.repository, rec.idempotencyKey, rec.revision,
         rec.phase, rec.ctx, rec.featureDescription, rec.cursor, rec.cost)
  }

  /** Transition lines carry no description. */
  function TransitionLineOf(rec: RunRecord): Line {
    Line(TransitionLine, rec.runId, rec.state, rec.repository, rec.idempotencyKey, rec.revision,
         rec.phase, rec.ctx, None, rec.cursor, rec.cost)
  }

  /** Everything the file ledger does on one call: the new index, the line it
      appends, and what the caller gets. */
  function Apply(index: Index, op: Op): Effect {
    var rec := Find(index, op.runId);
    match op
    case Start(runId, repository, _, _) =>
      if runId == "" || repository == "" then Effect(index, None, Invalid)
      else
        var r := StartRecord(rec, op);
        Effect(index[runId := r], Some(StartLineOf(r)), Written(r))
    case Update(runId, state, change, ctx, expectedRevision, expectedState) =>
      if change.Some? && change.value.phase == NO_LABEL then Effect(index, None, Invalid)
      else if rec.None? then Effect(index, None, UnknownRun)
      else if !Matches(rec.value, expectedRevision, expectedState) then
        Effect(index, None, Conflict(rec.value.revision, rec.value.state))
      else if change.Some? && change.value.attempt < 0 then Effect(index, None, Invalid)
      else
        var r := Transition(rec.value, state, change, ctx);
        Effect(index[runId := r], Some(TransitionLineOf(r)), Written(r))
    case Attribute(runId, cost, expectedRevision) =>
      if rec.None? then Effect(index, None, UnknownRun)
      else if !Matches(rec.value, expectedRevision, None) then
        Effect(index, None, Conflict(rec.value.revision, rec.value.state))
      else if !NonNegative(cost) then Effect(index, None, Invalid)
      else
        var r := rec.value.(revision := rec.value.revision + 1, cost := OverlayCost(cost, rec.value.cost));
        Effect(index[runId := r], Some(TransitionLineOf(r)), Written(r))
  }

  // ---- The file and torn writes ---------------------------------------------

  /** What one append leaves in the file: the line with its newline, the whole line
      without it, or a proper part of the line. */
  datatype Chunk = Terminated(line: Line) | Unterminated(line: Line) | Partial

  /** A physical line runs up to a newline; chunks without one are glued to the next. */
  function PhysicalLines(file: seq<Chunk>): (ps: seq<seq<Chunk>>)
    ensures file != [] ==> ps != []
  {
    if file == [] then []
    else
      var rest := PhysicalLines(file[1..]);
      if file[0].Terminated? || rest == [] then [[file[0]]] + rest
      else [[file[0]] + rest[0]] + rest[1..]
  }

  /** Only a single whole line is valid JSON. */
  function Decode(p: seq<Chunk>): Option<Line> {
    if |p| == 1 && !p[0].Partial? then Some(p[0].line) else None
  }

  /** The lines replay gets through before the first one that does not decode. */
  function Decoded(ps: seq<seq<Chunk>>): seq<Line> {
    if ps == [] || Decode(ps[0]).None? then [] else [Decode(ps[0]).value] + Decoded(ps[1..])
  }

  function ReadFile(file: seq<Chunk>): seq<Line> {
    Decoded(PhysicalLines(file))
  }

  // ---- The ledger object ----------------------------------------------------

  class FileRunLedger {
    var file: seq<Chunk>
    var index: Index

    constructor (existing: seq<Chunk>)
      ensures file == existing
      ensures index == Replay(map[], ReadFile(existing))
    {
      file := existing;
      index := map[];
      new;
      RebuildIndex();
    }

    /** Walks the file line by line, overwriting index entries, and stops at the
        first line that does not decode. */
    method RebuildIndex()
      requires index == map[]
      modifies this`index
      ensures index == Replay(map[], ReadFile(file))
    {
      var lines := PhysicalLines(file);
      var i := 0;
      while i < |lines|
        invariant i <= |lines|
        invariant Replay(index, Decoded(lines[i..])) == Replay(map[], ReadFile(file))
      {
        var entry := Decode(lines[i]);
        if entry.None? {
          break;
        }
        var l := entry.value;
        ghost var before := index;
        assert lines[i..][1..] == lines[i + 1..];
        if l.runId != "" {
          if l.kind == StartLine {
            index := index[l.runId := RunRecord(
              l.runId, l.state, l.repository, l.idempotencyKey,
              if l.revision != 0 then l.revision else 1,
              l.phase, l.ctx, l.featureDescription, l.cursor, CoerceCost(l.cost))];
          } else if l.runId in index {
            var rec := index[l.runId];
            index := index[l.runId := rec.(
              state := l.state,
              revision := if l.revision != 0 then l.revision else rec.revision + 1,
              phase := Or(l.phase, rec.phase), ctx := Or(l.ctx, rec.ctx),
              cursor := Or(l.cursor, rec.cursor), cost := CarryCost(l.cost, rec.cost),
              runId := l.runId)];
          }
        }
        assert index == ReplayLine(before, l);
        i := i + 1;
      }
    }

    method Append(l: Line)
      modifies this`file
      ensures file == old(file) + [Terminated(l)]
    {
      file := file + [Terminated(l)];
    }

    /** The state after a call is what `Apply` says, and so is the answer. */
    twostate predicate Did(op: Op, response: Response)
      reads this
    {
      var a := Apply(old(index), op);
      && index == a.index
      && file == old(file) + (if a.written.Some? then [Terminated(a.written.value)] else [])
      && response == a.response
    }

    method RecordStart(runId: string, repository: string, key: string, description: Option<string>)
      returns (response: Response)
      modifies this
      ensures Did(Start(runId, repository, key, description), response)
    {
      if runId == "" || repository == "" {
        return Invalid;
      }
      var rec;
      if runId in index {
        var existing := index[runId];
        rec := RunRecord(
          runId, Running, repository, key, existing.revision + 1, existing.phase, existing.ctx,
          if description.Some? then description else existing.featureDescription,
          existing.cursor, existing.cost);
      } else {
        rec := RunRecord(runId, Running, repository, key, 1, None, None, description, None, NO_COST);
      }
      index := index[runId := rec];
      Append(StartLineOf(rec));
      response := Written(rec);
    }

    /** Moves the checkpoint and the failure marker, and derives the legacy phase. */
    static method Advance(prev: Option<PhaseCursor>, change: PhaseChange)
      returns (cursor: PhaseCursor, phase: Label)
      ensures cursor == AdvanceCursor(prev, change) && phase == DerivedPhase(cursor)
    {
      var lastCompleted := if prev.Some? then prev.value.lastCompletedPhase else None;
      var failedPhase := Some(change.phase);
      if change.outcome == Ok || change.outcome == Skipped {
        lastCompleted := Some(change.phase);
        failedPhase := None;
      }
      cursor := PhaseCursor(change.phase, lastCompleted, failedPhase, change.attempt, change.outcome);
      phase := change.phase;
      if lastCompleted.Some? && lastCompleted.value != NO_LABEL {
        phase := lastCompleted.value;
      }
    }

    method UpdateState(
      runId: string, state: RunState, change: Option<PhaseChange>, ctx: Option<RunContext>,
      expectedRevision: Option<int>, expectedState: Option<RunState>) returns (response: Response)
      requires change.Some? ==> change.value.phase != NO_LABEL
      modifies this
      ensures Did(Update(runId, state, change, ctx, expectedRevision, expectedState), response)
    {
      if runId !in index {
        return UnknownRun;
      }
      var rec := index[runId];
      if !Matches(rec, expectedRevision, expectedState) {
        return Conflict(rec.revision, rec.state);
      }
      var newCursor, newPhase := rec.cursor, rec.phase;
      if change.Some? {
        if change.value.attempt < 0 {
          return Invalid;
        }
        var cursor, phase := Advance(rec.cursor, change.value);
        newCursor, newPhase := Some(cursor), Some(phase);
      }
      var updated := RunRecord(
        rec.runId, state, rec.repository, rec.idempotencyKey, rec.revision + 1, newPhase,
        if ctx.Some? then ctx else rec.ctx, rec.featureDescription, newCursor, NO_COST);
      index := index[runId := updated];
      Append(TransitionLineOf(updated));
      response := Written(updated);
    }

    method RecordPhase(runId: string, change: PhaseChange, ctx: Option<RunContext>, expectedRevision: Option<int>)
      returns (response: Response)
      modifies this
      ensures Did(Update(runId, Running, Some(change), ctx, expectedRevision, None), response)
    {
      if change.phase == NO_LABEL {
        return Invalid;
      }
      response := UpdateState(runId, Running, Some(change), ctx, expectedRevision, None);
    }

    /** `mark_complete`, `mark_failed`, `mark_paused`, `mark_blocked`, `mark_cancelled`
        and `mark_resume` differ only in the state they set. */
    method Mark(runId: string, state: RunState, expectedRevision: Option<int>, expectedState: Option<RunState>)
      returns (response: Response)
      modifies this
      ensures Did(Update(runId, state, None, None, expectedRevision, expectedState), response)
    {
      response := UpdateState(runId, state, None, None, expectedRevision, expectedState);
    }

    method RecordCostAttribution(runId: string, cost: Cost, expectedRevision: Option<int>)
      returns (response: Response)
      modifies this
      ensures Did(Attribute(runId, cost, expectedRevision), response)
    {
      if runId !in index {
        return UnknownRun;
      }
      var rec := index[runId];
      if expectedRevision.Some? && expectedRevision.value != rec.revision {
        return Conflict(rec.revision, rec.state);
      }
      if !NonNegative(cost) {
        return Invalid;
      }
      var updated := rec.(revision := rec.revision + 1, cost := OverlayCost(cost, rec.cost));
      index := index[runId := updated];
      Append(TransitionLineOf(updated));
      response := Written(updated);
    }
  }
}
