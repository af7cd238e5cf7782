/** What chains of processes do to a run: where a resume continues, and what becomes of
    the remediation limit. */
module ResumeChains {
  import opened Records
  import opened FileLedger
  import opened LedgerHistory
  import opened Orchestration

  // ---- Effects on one record ------------------------------------------------

  /** An unguarded, valid call on run `r`. */
  predicate Plain(op: Op, r: string) {
    && op.runId == r && r != ""
    && match op
       case Start(_, repository, _, _) => repository != ""
       case Update(_, _, change, _, expectedRevision, expectedState) =>
         && (change.Some? ==>
               change.value.phase != NO_LABEL && !change.value.outcome.Unlisted? && change.value.attempt >= 0)
         && expectedRevision.None? && expectedState.None?
       case Attribute(_, _, _) => false
  }

  predicate AllPlain(ops: seq<Op>, r: string) {
    forall i | 0 <= i < |ops| :: Plain(ops[i], r)
  }

  function RecordStep(rec: RunRecord, op: Op): RunRecord
    requires !op.Attribute?
  {
    if op.Start? then StartRecord(Some(rec), op) else Transition(rec, op.state, op.change, op.ctx)
  }

  function RecordRun(rec: RunRecord, ops: seq<Op>): RunRecord
    requires AllPlain(ops, rec.runId)
    decreases |ops|
  {
    if ops == [] then rec else RecordRun(RecordStep(rec, ops[0]), ops[1..])
  }

  lemma {:induction false} CallsOnRecord(s: Ledger, r: string, ops: seq<Op>)
    requires r in s.index && s.index[r].runId == r && AllPlain(ops, r)
    ensures Run(s, Calls(ops)).index == s.index[r := RecordRun(s.index[r], ops)]
    decreases |ops|
  {
    if ops != [] {
      var t := Step(s, Call(ops[0]));
      assert t.index == s.index[r := RecordStep(s.index[r], ops[0])];
      assert Calls(ops)[0] == Call(ops[0]) && Calls(ops)[1..] == Calls(ops[1..]);
      CallsOnRecord(t, r, ops[1..]);
    }
  }

  // ---- Progress -------------------------------------------------------------

  function SuccessOf(op: Op, r: string): seq<PhaseName> {
    if op.Update? && op.runId == r && op.change.Some? && op.change.value.phase.Named? && Succeeded(op.change.value.outcome)
    then [op.change.value.phase.name] else []
  }

  /** The phases recorded ok or skipped for run `r`, in the order of the calls. */
  function Successes(ops: seq<Op>, r: string): seq<PhaseName> {
    if ops == [] then [] else SuccessOf(ops[0], r) + Successes(ops[1..], r)
  }

  lemma {:induction false} SuccessesConcat(a: seq<Op>, b: seq<Op>, r: string)
    ensures Successes(a + b, r) == Successes(a, r) + Successes(b, r)
  {
    if a == [] {
      assert a + b == b;
    } else {
      assert (a + b)[1..] == a[1..] + b;
      SuccessesConcat(a[1..], b, r);
      var first := SuccessOf(a[0], r);
      assert first + (Successes(a[1..], r) + Successes(b, r)) == (first + Successes(a[1..], r)) + Successes(b, r);
    }
  }

  lemma {:induction false} RecordRunConcat(rec: RunRecord, a: seq<Op>, b: seq<Op>)
    requires AllPlain(a, rec.runId) && AllPlain(b, rec.runId)
    ensures AllPlain(a + b, rec.runId) && RecordRun(rec, a).runId == rec.runId
    ensures RecordRun(rec, a + b) == RecordRun(RecordRun(rec, a), b)
    decreases |a|
  {
    if a == [] {
      assert a + b == b;
    } else {
      assert (a + b)[1..] == a[1..] + b;
      RecordRunConcat(RecordStep(rec, a[0]), a[1..], b);
    }
  }

  function Checkpoint(k: nat): Option<Label>
    requires k <= PHASES
  {
    if k == 0 then None else Some(Named(PHASE_SEQUENCE[k - 1]))
  }

  /** The record stands before phase `k`: without a cursor and with the legacy phase
      before `k`, or with a cursor on the success before `k`, or with a cursor on a failed
      attempt of phase `k`.  A failed cursor may have lost its checkpoint: the in-memory
      ledger drops the cursor on a restart.  The attempt counter never leaves zero. */
  ghost predicate AtIndex(rec: RunRecord, k: nat) {
    && k <= PHASES
    && match rec.cursor
       case None => rec.phase == Checkpoint(k)
       case Some(c) =>
         && c.phaseAttempt == 0 && !c.phaseOutcome.Unlisted?
         && rec.phase == Some(DerivedPhase(c))
         && if Succeeded(c.phaseOutcome)
            then k > 0 && c.currentPhase == Named(PHASE_SEQUENCE[k - 1]) && c.failedPhase.None?
                 && c.lastCompletedPhase == Checkpoint(k)
            else k < PHASES && c.currentPhase == Named(PHASE_SEQUENCE[k]) && c.failedPhase == Some(c.currentPhase)
                 && (c.lastCompletedPhase == Checkpoint(k) || c.lastCompletedPhase.None?)
  }

  lemma AtIndexResumes(rec: RunRecord, k: nat)
    requires AtIndex(rec, k)
    ensures ResumeIndex(rec) == Some(k)
  {
  }

  /** At index `k`, and complete only when nothing is left to run. */
  ghost predicate Sound(rec: RunRecord, k: nat) {
    AtIndex(rec, k) && (rec.state == Complete ==> k == PHASES)
  }

  /** The calls record exactly the phases from `i` up to `j` as successes, leave the
      record at `j`, and mark completion only at the end of the sequence. */
  ghost predicate Moves(rec: RunRecord, ops: seq<Op>, i: nat, j: nat) {
    && AllPlain(ops, rec.runId)
    && i <= j <= PHASES
    && Successes(ops, rec.runId) == PHASE_SEQUENCE[i..j]
    && Sound(RecordRun(rec, ops), j)
    && RecordRun(rec, ops).runId == rec.runId
    && (MarkOp(rec.runId, Complete) in ops ==> j == PHASES)
  }

  lemma Slices(i: nat, j: nat, k: nat)
    requires i <= j <= k <= PHASES
    ensures PHASE_SEQUENCE[i..j] + PHASE_SEQUENCE[j..k] == PHASE_SEQUENCE[i..k]
  {
  }

  lemma MovesConcat(rec: RunRecord, a: seq<Op>, b: seq<Op>, i: nat, j: nat, k: nat)
    requires Moves(rec, a, i, j) && Moves(RecordRun(rec, a), b, j, k)
    ensures Moves(rec, a + b, i, k)
    ensures RecordRun(rec, a + b) == RecordRun(RecordRun(rec, a), b)
  {
    RecordRunConcat(rec, a, b);
    SuccessesConcat(a, b, rec.runId);
    Slices(i, j, k);
  }

  lemma MovesNot(rec: RunRecord, i: nat)
    requires Sound(rec, i)
    ensures Moves(rec, [], i, i) && RecordRun(rec, []) == rec
  {
  }

  lemma MovesOne(rec: RunRecord, op: Op, i: nat)
    requires Sound(rec, i) && Plain(op, rec.runId)
    requires op.Update? && op.change.None? && op.state == Complete ==> i == PHASES
    requires op.Update? && op.change.Some? ==>
               && i < PHASES && op.state == Running && op.change.value.phase == Named(PHASE_SEQUENCE[i])
               && op.change.value.attempt == 0 && !op.change.value.outcome.Unlisted?
    ensures var j := if op.Update? && op.change.Some? && Succeeded(op.change.value.outcome) then i + 1 else i;
            Moves(rec, [op], i, j) && RecordRun(rec, [op]) == RecordStep(rec, op)
  {
    assert [op][1..] == [];
    assert RecordRun(rec, [op]) == RecordRun(RecordStep(rec, op), []) == RecordStep(rec, op);
    assert Successes([op], rec.runId) == SuccessOf(op, rec.runId);
  }

  /** Recording an outcome moves the index by one success or not at all, with or
      without a state change after it. */
  lemma RecordMoves(rec: RunRecord, i: nat, outcome: PhaseOutcome, ctx: RunContext, mark: Option<RunState>)
    requires Sound(rec, i) && rec.runId != "" && i < PHASES
    requires mark == Some(Complete) ==> Succeeded(outcome) && i + 1 == PHASES
    ensures var j := if Succeeded(outcome) then i + 1 else i;
            Moves(rec, RecordAndMark(rec.runId, PHASE_SEQUENCE[i], outcome, ctx, mark), i, j)
  {
    var record := RecordOp(rec.runId, PHASE_SEQUENCE[i], outcome, ctx);
    var j := if Succeeded(outcome) then i + 1 else i;
    MovesOne(rec, record, i);
    if mark.Some? {
      var op := MarkOp(rec.runId, mark.value);
      MovesOne(RecordRun(rec, [record]), op, j);
      MovesConcat(rec, [record], [op], i, j, j);
      assert [record] + [op] == [record, op];
    }
  }

  lemma IterationMoves(cfg: Config, rec: RunRecord, i: nat, ctx: RunContext, e: PhaseEnd) returns (j: nat)
    requires Sound(rec, i) && rec.runId != "" && i < PHASES
    ensures var step := Iterate(cfg, rec.runId, PHASE_SEQUENCE[i], ctx, e);
            Moves(rec, step.ops, i, j) && (step.stop.None? ==> j == i + 1) && step.stop != Some(RunCompleted)
  {
    j := i;
    match e
    case Dies => MovesNot(rec, i);
    case Raises => MovesOne(rec, MarkOp(rec.runId, RunState.Failed), i);
    case Returns(_, _, after) =>
      var (outcome, next) := RecordedOutcome(cfg, PHASE_SEQUENCE[i], ctx, e);
      j := if Succeeded(outcome) then i + 1 else i;
      assert PHASE_SEQUENCE[i] == Completed ==> i + 1 == PHASES;
      RecordMoves(rec, i, outcome, next, Verdict(PHASE_SEQUENCE[i], outcome, after).0);
  }

  /** What the loop does from `i` on, given its next iteration. */
  function LoopAfter(cfg: Config, runId: string, i: nat, step: Iteration, world: World): Report
    requires i < PHASES
  {
    if step.stop.Some? then Report(step.ops, step.stop.value)
    else
      var rest := PhaseLoop(cfg, runId, i + 1, step.ctx, world);
      Report(step.ops + rest.ops, rest.terminal)
  }

  lemma LoopUnfolds(cfg: Config, r: string, i: nat, ctx: RunContext, world: World) returns (step: Iteration)
    requires i < PHASES
    ensures step == Iterate(cfg, r, PHASE_SEQUENCE[i], ctx, world(PHASE_SEQUENCE[i]))
    ensures PhaseLoop(cfg, r, i, ctx, world) == LoopAfter(cfg, r, i, step, world)
  {
    step := Iterate(cfg, r, PHASE_SEQUENCE[i], ctx, world(PHASE_SEQUENCE[i]));
  }

  /** One iteration takes the record from `i` to `j` and the loop to its rest. */
  lemma LoopMoves(cfg: Config, rec: RunRecord, i: nat, ctx: RunContext, world: World) returns (step: Iteration, j: nat)
    requires Sound(rec, i) && rec.runId != "" && i < PHASES
    ensures Moves(rec, step.ops, i, j) && (step.stop.None? ==> j == i + 1) && step.stop != Some(RunCompleted)
    ensures PhaseLoop(cfg, rec.runId, i, ctx, world) == LoopAfter(cfg, rec.runId, i, step, world)
  {
    step := LoopUnfolds(cfg, rec.runId, i, ctx, world);
    j := IterationMoves(cfg, rec, i, ctx, world(PHASE_SEQUENCE[i]));
  }

  /** Induction along the phases.  A property of the ready states of phase `n` holds at a
      ready state of an earlier phase, if each ready state has it or leads to a ready state
      of the next phase from which it carries over. */
  lemma {:induction false} ByPhases<S(!new)>(
    n: nat, ready: (nat, S) -> bool, holds: (nat, S) -> bool, leads: (nat, S, S) -> bool, i: nat, s: S)
    requires i <= n && ready(i, s)
    requires forall t | ready(n, t) :: holds(n, t)
    requires forall k: nat, t | k < n && ready(k, t) :: holds(k, t) || exists u :: leads(k, t, u)
    requires forall k: nat, t, u | leads(k, t, u) :: ready(k + 1, u) && (holds(k + 1, u) ==> holds(k, t))
    ensures holds(i, s)
    decreases n - i
  {
    if i < n && !holds(i, s) {
      var u :| leads(i, s, u);
      ByPhases(n, ready, holds, leads, i + 1, u);
    }
  }

  /** Where a loop stands before a phase: the record and the context. */
  type Place = (RunRecord, RunContext)

  ghost predicate Standing(k: nat, at: Place) {
    Sound(at.0, k) && at.0.runId != ""
  }

  /** From phase `k` the loop takes the record to `j`. */
  ghost predicate Reaches(cfg: Config, k: nat, at: Place, world: World, j: nat)
    requires k <= PHASES
  {
    var loop := PhaseLoop(cfg, at.0.runId, k, at.1, world);
    Moves(at.0, loop.ops, k, j) && (loop.terminal == RunCompleted ==> j == PHASES)
  }

  ghost predicate ReachesSome(cfg: Config, k: nat, at: Place, world: World)
    requires k <= PHASES
  {
    exists j: nat :: Reaches(cfg, k, at, world, j)
  }

  ghost predicate LeadsOn(cfg: Config, k: nat, at: Place, next: Place, world: World)
    requires k < PHASES
  {
    Standing(k + 1, next) && (ReachesSome(cfg, k + 1, next, world) ==> ReachesSome(cfg, k, at, world))
  }

  lemma ReachesLater(cfg: Config, k: nat, at: Place, step: Iteration, world: World, j: nat)
    requires k < PHASES && Moves(at.0, step.ops, k, k + 1)
    requires PhaseLoop(cfg, at.0.runId, k, at.1, world) == LoopAfter(cfg, at.0.runId, k, step, world) && step.stop.None?
    requires Reaches(cfg, k + 1, (RecordRun(at.0, step.ops), step.ctx), world, j)
    ensures Reaches(cfg, k, at, world, j)
  {
    MovesConcat(at.0, step.ops, PhaseLoop(cfg, at.0.runId, k + 1, step.ctx, world).ops, k, k + 1, j);
  }

  lemma ReachesStep(cfg: Config, k: nat, at: Place, world: World) returns (next: Place)
    requires k < PHASES && Standing(k, at)
    ensures ReachesSome(cfg, k, at, world) || LeadsOn(cfg, k, at, next, world)
  {
    var step, j := LoopMoves(cfg, at.0, k, at.1, world);
    next := (RecordRun(at.0, step.ops), step.ctx);
    if step.stop.Some? {
      assert Reaches(cfg, k, at, world, j);
    } else if ReachesSome(cfg, k + 1, next, world) {
      var last: nat :| Reaches(cfg, k + 1, next, world, last);
      ReachesLater(cfg, k, at, step, world, last);
    }
  }

  lemma ReachesTheEnd(cfg: Config, at: Place, world: World)
    requires Standing(PHASES, at)
    ensures ReachesSome(cfg, PHASES, at, world)
  {
    MovesNot(at.0, PHASES);
    assert Reaches(cfg, PHASES, at, world, PHASES);
  }

  /** One process that enters the loop at the index the record is at: it marks the run
      complete, or returns completion, only when all twelve phases have succeeded. */
  lemma LoopProgress(cfg: Config, rec: RunRecord, i: nat, ctx: RunContext, world: World)
    returns (j: nat)
    requires Sound(rec, i) && rec.runId != ""
    ensures Moves(rec, PhaseLoop(cfg, rec.runId, i, ctx, world).ops, i, j)
    ensures PhaseLoop(cfg, rec.runId, i, ctx, world).terminal == RunCompleted ==> j == PHASES
  {
    AlwaysReaches(cfg, i, (rec, ctx), world);
    j :| Reaches(cfg, i, (rec, ctx), world, j);
  }

  lemma AlwaysReaches(cfg: Config, i: nat, at: Place, world: World)
    requires i <= PHASES && Standing(i, at)
    ensures ReachesSome(cfg, i, at, world)
  {
    var ready := (k: nat, p: Place) => Standing(k, p);
    var holds := (k: nat, p: Place) => k <= PHASES && ReachesSome(cfg, k, p, world);
    var leads := (k: nat, p: Place, next: Place) => k < PHASES && LeadsOn(cfg, k, p, next, world);
    forall k: nat, p | k < PHASES && ready(k, p) ensures holds(k, p) || exists next :: leads(k, p, next) {
      var next := ReachesStep(cfg, k, p, world);
      assert !holds(k, p) ==> leads(k, p, next);
    }
    forall p | ready(PHASES, p) ensures holds(PHASES, p) {
      ReachesTheEnd(cfg, p, world);
    }
    ByPhases(PHASES, ready, holds, leads, i, at);
  }

  // ---- Chains of processes --------------------------------------------------

  /** What can happen to a run after its start: a resume, a cancellation, any call
      about another run, a cost stamp, or a restart of the ledger. */
  datatype ChainEvent = Resume(inp: RunInput) | Cancel | Elsewhere(op: Op) | Restart

  predicate ConcernsOthers(e: ChainEvent, r: string) {
    e.Elsewhere? ==> e.op.runId != r || e.op.Attribute?
  }

  /** The ledger events one chain event amounts to, given the ledger it meets. */
  function EventsOf(s: Ledger, r: string, e: ChainEvent): seq<Event> {
    match e
    case Resume(inp) => if r in s.index then Calls(ResumeRun(s.index[r], inp).ops) else []
    case Cancel => if r in s.index && s.index[r].state != Complete then Calls([MarkOp(r, Cancelled)]) else []
    case Elsewhere(op) => Calls([op])
    case Restart => [Reopen]
  }

  function Chain(s: Ledger, r: string, es: seq<ChainEvent>): seq<Event>
    decreases |es|
  {
    if es == [] then []
    else var first := EventsOf(s, r, es[0]); first + Chain(Run(s, first), r, es[1..])
  }

  lemma {:induction false} CallsInCalls(ops: seq<Op>)
    ensures CallsIn(Calls(ops)) == ops
  {
    if ops != [] {
      assert Calls(ops)[1..] == Calls(ops[1..]);
      CallsInCalls(ops[1..]);
    }
  }

  /** Recorded successes are the first phases of the sequence, once each and in order;
      the record resumes right after them; and completion was marked only after all twelve. */
  ghost predicate Progress(s: Ledger, r: string, history: seq<Op>) {
    var done := Successes(history, r);
    && r in s.index && s.index[r].runId == r
    && |done| <= PHASES && done == PHASE_SEQUENCE[..|done|]
    && Sound(s.index[r], |done|)
    && (MarkOp(r, Complete) in history ==> |done| == PHASES)
  }

  /** An event that is no resume leaves a record as it is, but for revision, cost and a
      cancellation. */
  lemma OtherEventsKeepRecord(s: Ledger, r: string, e: ChainEvent)
    requires Refines(s) && r in s.index && ConcernsOthers(e, r) && !e.Resume?
    ensures var t := Run(s, EventsOf(s, r, e));
            && r in t.index
            && t.index[r].state == (if e.Cancel? && s.index[r].state != Complete then Cancelled else s.index[r].state)
            && t.index[r].(state := s.index[r].state, revision := s.index[r].revision, cost := s.index[r].cost)
               == s.index[r]
  {
    match e
    case Cancel =>
      if s.index[r].state != Complete {
        var mark := MarkOp(r, Cancelled);
        assert Calls([mark]) == [Call(mark)];
        OneEvent(s, Call(mark));
      }
    case Elsewhere(op) =>
      assert Calls([op]) == [Call(op)];
      OneEvent(s, Call(op));
      ApplyShape(s.index, op);
    case Restart =>
      OneEvent(s, Reopen);
  }

  lemma SameRecordSameIndex(rec: RunRecord, after: RunRecord, k: nat)
    requires Sound(rec, k) && (after.state == rec.state || after.state == Cancelled)
    requires after.(state := rec.state, revision := rec.revision, cost := rec.cost) == rec
    ensures Sound(after, k)
  {
  }

  lemma PreludeMoves(rec: RunRecord, i: nat, feature: string)
    requires Sound(rec, i) && rec.runId != "" && rec.repository != ""
    ensures var mark, begin := MarkOp(rec.runId, Running), Start(rec.runId, rec.repository, "", Some(feature));
            Moves(rec, [mark], i, i) && Moves(rec, [mark, begin], i, i)
  {
    var mark, begin := MarkOp(rec.runId, Running), Start(rec.runId, rec.repository, "", Some(feature));
    MovesOne(rec, mark, i);
    MovesOne(RecordRun(rec, [mark]), begin, i);
    MovesConcat(rec, [mark], [begin], i, i, i);
    assert [mark] + [begin] == [mark, begin];
  }

  /** What a resume does to the record of its own run. */
  lemma ResumeProgress(rec: RunRecord, i: nat, inp: RunInput) returns (j: nat)
    requires Sound(rec, i) && rec.runId != "" && rec.repository != ""
    ensures Moves(rec, ResumeRun(rec, inp).ops, i, j)
    ensures ResumeRun(rec, inp).terminal == RunCompleted ==> j == PHASES
  {
    j := i;
    AtIndexResumes(rec, i);
    MovesNot(rec, i);
    PreludeMoves(rec, i, FeatureOf(rec));
    var r := ResumeRun(rec, inp);
    if inp.entry == EntersLoop && |r.ops| > 1 {
      var pre := [MarkOp(rec.runId, Running), Start(rec.runId, rec.repository, "", Some(FeatureOf(rec)))];
      var loop := PhaseLoop(inp.cfg, rec.runId, i, ResumeContext(inp.cfg, rec), inp.world);
      assert r == Report(pre + loop.ops, loop.terminal);
      j := LoopProgress(inp.cfg, RecordRun(rec, pre), i, ResumeContext(inp.cfg, rec), inp.world);
      MovesConcat(rec, pre, loop.ops, i, i, j);
    }
  }

  lemma StartProgress(runId: string, feature: string, repo: string, key: string, inp: RunInput) returns (j: nat)
    requires runId != "" && feature != "" && repo != ""
    ensures var r := StartRun(runId, feature, repo, key, inp);
            var born := StartRecord(None, r.ops[0]);
            && r.ops[0] == Start(runId, repo, key, Some(feature))
            && Moves(born, r.ops[1..], 0, j)
            && (r.terminal == RunCompleted ==> j == PHASES)
  {
    j := 0;
    var r := StartRun(runId, feature, repo, key, inp);
    var born := StartRecord(None, r.ops[0]);
    MovesNot(born, 0);
    if inp.entry == EntersLoop {
      j := LoopProgress(inp.cfg, born, 0, FreshContext(inp.cfg, runId, feature, repo), inp.world);
    }
  }

  lemma PrefixExtends(i: nat, j: nat)
    requires i <= j <= PHASES
    ensures PHASE_SEQUENCE[..i] + PHASE_SEQUENCE[i..j] == PHASE_SEQUENCE[..j]
    ensures |PHASE_SEQUENCE[..j]| == j
  {
  }

  lemma CallsProgress(s: Ledger, r: string, history: seq<Op>, ops: seq<Op>, j: nat)
    requires Progress(s, r, history)
    requires Moves(s.index[r], ops, |Successes(history, r)|, j)
    ensures Progress(Run(s, Calls(ops)), r, history + ops)
  {
    CallsOnRecord(s, r, ops);
    SuccessesConcat(history, ops, r);
    PrefixExtends(|Successes(history, r)|, j);
  }

  /** A call that records no phase of `r` and leaves its cursor, phase and state. */
  lemma QuietProgress(s: Ledger, r: string, history: seq<Op>, op: Op, t: Ledger)
    requires Progress(s, r, history) && SuccessOf(op, r) == []
    requires r in t.index && t.index[r].runId == r
    requires t.index[r].cursor == s.index[r].cursor && t.index[r].phase == s.index[r].phase
    requires t.index[r].state == s.index[r].state
    requires op != MarkOp(r, Complete)
    ensures Progress(t, r, history + [op])
  {
    SuccessesConcat(history, [op], r);
    assert [op][1..] == [];
    assert Successes([op], r) == [];
    assert Successes(history, r) + [] == Successes(history, r);
  }

  lemma ResumeStepProgress(s: Ledger, r: string, history: seq<Op>, inp: RunInput)
    requires Refines(s) && Progress(s, r, history)
    ensures Progress(Run(s, EventsOf(s, r, Resume(inp))), r, history + CallsIn(EventsOf(s, r, Resume(inp))))
  {
    var ops := ResumeRun(s.index[r], inp).ops;
    var j := ResumeProgress(s.index[r], |Successes(history, r)|, inp);
    CallsInCalls(ops);
    CallsProgress(s, r, history, ops, j);
  }

  lemma StepProgress(s: Ledger, r: string, history: seq<Op>, e: ChainEvent)
    requires Refines(s) && Progress(s, r, history) && ConcernsOthers(e, r)
    ensures Progress(Run(s, EventsOf(s, r, e)), r, history + CallsIn(EventsOf(s, r, e)))
  {
    var i := |Successes(history, r)|;
    match e
    case Resume(inp) =>
      ResumeStepProgress(s, r, history, inp);
    case Cancel =>
      if s.index[r].state != Complete {
        MovesOne(s.index[r], MarkOp(r, Cancelled), i);
        CallsInCalls([MarkOp(r, Cancelled)]);
        CallsProgress(s, r, history, [MarkOp(r, Cancelled)], i);
      } else {
        assert history + [] == history;
      }
    case Elsewhere(op) =>
      CallsInCalls([op]);
      assert Calls([op]) == [Call(op)];
      OneEvent(s, Call(op));
      ApplyShape(s.index, op);
      QuietProgress(s, r, history, op, Step(s, Call(op)));
    case Restart =>
      OneEvent(s, Reopen);
      assert CallsIn([Reopen]) == [] && history + [] == history;
  }

  /** Induction along a chain: what every event carries from the calls so far to those and
      its own holds at the end. */
  lemma {:induction false} ByChain(
    s: Ledger, r: string, history: seq<Op>, es: seq<ChainEvent>, holds: (Ledger, seq<Op>) -> bool)
    requires holds(s, history)
    requires forall i | 0 <= i < |es| :: ConcernsOthers(es[i], r)
    requires forall t, h, e | holds(t, h) && ConcernsOthers(e, r) ::
               holds(Run(t, EventsOf(t, r, e)), h + CallsIn(EventsOf(t, r, e)))
    ensures holds(Run(s, Chain(s, r, es)), history + CallsIn(Chain(s, r, es)))
    decreases |es|
  {
    if es == [] {
      assert history + [] == history;
    } else {
      var first := EventsOf(s, r, es[0]);
      assert holds(Run(s, first), history + CallsIn(first));
      ByChain(Run(s, first), r, history + CallsIn(first), es[1..], holds);
      CarriesOver(s, history, first, Chain(Run(s, first), r, es[1..]), holds);
    }
  }

  lemma CarriesOver(s: Ledger, history: seq<Op>, a: seq<Event>, b: seq<Event>, holds: (Ledger, seq<Op>) -> bool)
    requires holds(Run(Run(s, a), b), history + CallsIn(a) + CallsIn(b))
    ensures holds(Run(s, a + b), history + CallsIn(a + b))
  {
    RunConcat(s, a, b);
    CallsInConcat(a, b);
    assert history + CallsIn(a) + CallsIn(b) == history + (CallsIn(a) + CallsIn(b));
  }

  lemma ChainProgress(s: Ledger, r: string, history: seq<Op>, es: seq<ChainEvent>)
    requires Refines(s) && Progress(s, r, history)
    requires forall i | 0 <= i < |es| :: ConcernsOthers(es[i], r)
    ensures Progress(Run(s, Chain(s, r, es)), r, history + CallsIn(Chain(s, r, es)))
  {
    var holds := (t: Ledger, h: seq<Op>) => Refines(t) && Progress(t, r, h);
    forall t, h, e | holds(t, h) && ConcernsOthers(e, r)
      ensures holds(Run(t, EventsOf(t, r, e)), h + CallsIn(EventsOf(t, r, e)))
    {
      StepProgress(t, r, h, e);
      ReplayRefinesLive(t, EventsOf(t, r, e));
    }
    ByChain(s, r, history, es, holds);
  }

  lemma FirstRecord(s: Ledger, begin: Op)
    requires begin.Start? && Plain(begin, begin.runId) && begin.runId !in s.index
    ensures Step(s, Call(begin)).index == s.index[begin.runId := StartRecord(None, begin)]
    ensures Progress(Step(s, Call(begin)), begin.runId, [begin])
  {
    assert [begin][1..] == [];
    assert Successes([begin], begin.runId) == [];
  }

  lemma CallsSplit(s: Ledger, ops: seq<Op>)
    requires ops != []
    ensures Run(s, Calls(ops)) == Run(Step(s, Call(ops[0])), Calls(ops[1..]))
  {
    assert Calls(ops)[0] == Call(ops[0]) && Calls(ops)[1..] == Calls(ops[1..]);
  }

  lemma StartEstablishesProgress(s: Ledger, r: string, feature: string, repo: string, key: string, inp: RunInput)
    requires r !in s.index && r != "" && feature != "" && repo != ""
    ensures var ops := StartRun(r, feature, repo, key, inp).ops;
            Progress(Run(s, Calls(ops)), r, ops)
  {
    var ops := StartRun(r, feature, repo, key, inp).ops;
    var j := StartProgress(r, feature, repo, key, inp);
    FirstRecord(s, ops[0]);
    CallsProgress(Step(s, Call(ops[0])), r, [ops[0]], ops[1..], j);
    CallsSplit(s, ops);
    assert ops == [ops[0]] + ops[1..];
  }

  /** Resume is exact.  Start an unknown run, then let any chain of resumes,
      cancellations, restarts, cost stamps and calls about other runs follow, each
      process with its own outcomes and its own point of death.  The phases recorded as
      successes are the first ones of the sequence, once each and in order; the next
      resume begins at exactly that count; and the run was marked complete, or is
      complete, only if all twelve phases succeeded. */
  lemma ResumeIsExact(s: Ledger, r: string, feature: string, repo: string, key: string, inp: RunInput, es: seq<ChainEvent>)
    requires Refines(s) && r !in s.index && r != "" && feature != "" && repo != ""
    requires forall i | 0 <= i < |es| :: ConcernsOthers(es[i], r)
    ensures var begin := StartRun(r, feature, repo, key, inp).ops;
            var begun := Run(s, Calls(begin));
            var chain := Chain(begun, r, es);
            var t := Run(begun, chain);
            var history := begin + CallsIn(chain);
            var done := Successes(history, r);
            && |done| <= PHASES && done == PHASE_SEQUENCE[..|done|]
            && r in t.index && ResumeIndex(t.index[r]) == Some(|done|)
            && (t.index[r].cursor.Some? ==> t.index[r].cursor.value.phaseAttempt == 0)
            && (t.index[r].state == Complete ==> |done| == PHASES)
            && (MarkOp(r, Complete) in history ==> |done| == PHASES)
  {
    var begin := StartRun(r, feature, repo, key, inp).ops;
    var begun := Run(s, Calls(begin));
    StartEstablishesProgress(s, r, feature, repo, key, inp);
    ReplayRefinesLive(s, Calls(begin));
    ChainProgress(begun, r, begin, es);
    var t, history := Run(begun, Chain(begun, r, es)), begin + CallsIn(Chain(begun, r, es));
    assert Progress(t, r, history);
    AtIndexResumes(t.index[r], |Successes(history, r)|);
  }

  // ---- The remediation limit ------------------------------------------------

  const REMEDIATION := PhaseIndex(Remediation)

  /** The remediation bookkeeping a process has when it reaches phase `i`. */
  predicate Restrained(ctx: RunContext, i: nat) {
    !ctx.remediationExhausted && ctx.remediationAttempts <= (if i > REMEDIATION then 1 else 0)
  }

  predicate RestrainedCalls(ops: seq<Op>, r: string) {
    forall i | 0 <= i < |ops| && ops[i].Update? && ops[i].runId == r && ops[i].ctx.Some? ::
      Restrained(ops[i].ctx.value, PHASES)
  }

  lemma PhaseRestrains(cfg: Config, other: Config, i: nat, ctx: RunContext, inp: HandlerInput)
    requires i < PHASES && Restrained(ctx, i) && cfg.localSkipReason == other.localSkipReason
    ensures Restrained(RunPhase(cfg, PHASE_SEQUENCE[i], ctx, inp).1, i + 1)
    ensures RunPhase(cfg, PHASE_SEQUENCE[i], ctx, inp) == RunPhase(other, PHASE_SEQUENCE[i], ctx, inp)
  {
  }

  lemma IterationRestrains(cfg: Config, other: Config, r: string, i: nat, ctx: RunContext, e: PhaseEnd)
    requires i < PHASES && Restrained(ctx, i) && cfg.localSkipReason == other.localSkipReason
    ensures var step := Iterate(cfg, r, PHASE_SEQUENCE[i], ctx, e);
            && RestrainedCalls(step.ops, r) && (step.stop.None? ==> Restrained(step.ctx, i + 1))
            && step == Iterate(other, r, PHASE_SEQUENCE[i], ctx, e)
  {
    if e.Returns? { PhaseRestrains(cfg, other, i, ctx, e.inp); }
  }

  lemma RestrainedConcat(a: seq<Op>, b: seq<Op>, r: string)
    requires RestrainedCalls(a, r) && RestrainedCalls(b, r)
    ensures RestrainedCalls(a + b, r)
  {
  }

  lemma SameIteration(cfg: Config, other: Config, r: string, i: nat, ctx: RunContext, world: World) returns (step: Iteration)
    requires i < PHASES && Restrained(ctx, i) && cfg.localSkipReason == other.localSkipReason
    ensures step.stop.None? ==> Restrained(step.ctx, i + 1)
    ensures PhaseLoop(cfg, r, i, ctx, world) == LoopAfter(cfg, r, i, step, world)
    ensures PhaseLoop(other, r, i, ctx, world) == LoopAfter(other, r, i, step, world)
  {
    IterationRestrains(cfg, other, r, i, ctx, world(PHASE_SEQUENCE[i]));
    step := LoopUnfolds(cfg, r, i, ctx, world);
    var _ := LoopUnfolds(other, r, i, ctx, world);
  }

  lemma RestrainedIteration(cfg: Config, r: string, i: nat, ctx: RunContext, world: World) returns (step: Iteration)
    requires i < PHASES && Restrained(ctx, i)
    ensures RestrainedCalls(step.ops, r) && (step.stop.None? ==> Restrained(step.ctx, i + 1))
    ensures PhaseLoop(cfg, r, i, ctx, world) == LoopAfter(cfg, r, i, step, world)
  {
    IterationRestrains(cfg, cfg, r, i, ctx, world(PHASE_SEQUENCE[i]));
    step := LoopUnfolds(cfg, r, i, ctx, world);
  }

  lemma {:induction false} LoopRestrains(cfg: Config, r: string, i: nat, ctx: RunContext, world: World)
    requires i <= PHASES && Restrained(ctx, i)
    ensures RestrainedCalls(PhaseLoop(cfg, r, i, ctx, world).ops, r)
    decreases PHASES - i
  {
    if i < PHASES {
      var step := RestrainedIteration(cfg, r, i, ctx, world);
      if step.stop.None? {
        LoopRestrains(cfg, r, i + 1, step.ctx, world);
        RestrainedConcat(step.ops, PhaseLoop(cfg, r, i + 1, step.ctx, world).ops, r);
      }
    }
  }

  lemma {:induction false} LoopIgnoresLimit(
    cfg: Config, other: Config, r: string, i: nat, ctx: RunContext, world: World)
    requires i <= PHASES && Restrained(ctx, i) && cfg.localSkipReason == other.localSkipReason
    ensures PhaseLoop(cfg, r, i, ctx, world) == PhaseLoop(other, r, i, ctx, world)
    decreases PHASES - i
  {
    if i < PHASES {
      var step := SameIteration(cfg, other, r, i, ctx, world);
      if step.stop.None? {
        LoopIgnoresLimit(cfg, other, r, i + 1, step.ctx, world);
      }
    }
  }

  function WithLimit(inp: RunInput, limit: int): RunInput
    requires limit >= 1
  {
    inp.(cfg := RawConfig(limit, inp.cfg.localSkipReason))
  }

  /** The remediation limit is inert: no start behaves differently under another limit,
      and every context it records has at most one attempt and is never exhausted. */
  lemma StartIgnoresLimit(r: string, feature: string, repo: string, key: string, inp: RunInput, limit: int)
    requires limit >= 1
    ensures StartRun(r, feature, repo, key, WithLimit(inp, limit)) == StartRun(r, feature, repo, key, inp)
    ensures RestrainedCalls(StartRun(r, feature, repo, key, inp).ops, r)
  {
    var other: Config := RawConfig(limit, inp.cfg.localSkipReason);
    LoopRestrains(inp.cfg, r, 0, FreshContext(inp.cfg, r, feature, repo), inp.world);
    LoopIgnoresLimit(inp.cfg, other, r, 0, FreshContext(inp.cfg, r, feature, repo), inp.world);
  }

  /** Nor does any resume, whatever the record holds: it restarts the count at zero. */
  lemma ResumeIgnoresLimit(rec: RunRecord, inp: RunInput, limit: int)
    requires limit >= 1
    ensures ResumeRun(rec, WithLimit(inp, limit)) == ResumeRun(rec, inp)
    ensures RestrainedCalls(ResumeRun(rec, inp).ops, rec.runId)
  {
    var other: Config := RawConfig(limit, inp.cfg.localSkipReason);
    if ResumeIndex(rec).Some? {
      LoopRestrains(inp.cfg, rec.runId, ResumeIndex(rec).value, ResumeContext(inp.cfg, rec), inp.world);
      LoopIgnoresLimit(inp.cfg, other, rec.runId, ResumeIndex(rec).value, ResumeContext(inp.cfg, rec), inp.world);
    }
  }
}
