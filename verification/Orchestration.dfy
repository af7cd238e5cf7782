/** The phase loop over the durable ledger, and chains of start, resume and cancel.
    Handlers, budgets, leases and process deaths are inputs. */
module Orchestration {
  import opened Records
  import opened FileLedger
  import opened LedgerHistory

  // ---- Phases ---------------------------------------------------------------

  function PhaseIndex(p: PhaseName): (i: nat)
    ensures i < |PHASE_SEQUENCE| && PHASE_SEQUENCE[i] == p
    ensures forall j | 0 <= j < |PHASE_SEQUENCE| && PHASE_SEQUENCE[j] == p :: j == i
  {
    match p
    case FeatureRequest => 0
    case RepositoryDiscovery => 1
    case Specification => 2
    case Planning => 3
    case Implementation => 4
    case Validation => 5
    case Remediation => 6
    case Review => 7
    case DraftPr => 8
    case Ci => 9
    case Ready => 10
    case Completed => 11
  }

  const PHASES := |PHASE_SEQUENCE|

  datatype RawConfig = RawConfig(maxRemediationAttempts: int, localSkipReason: string)

  /** The configuration refuses a remediation limit below one.  A non-empty skip
      reason selects the local completion policy. */
  type Config = c: RawConfig | c.maxRemediationAttempts >= 1 witness RawConfig(3, "")

  predicate LocalOnly(cfg: Config) {
    cfg.localSkipReason != ""
  }

  /** What the world contributes to one handler call. */
  datatype HandlerInput = HandlerInput(
    raises: bool,
    outcome: PhaseOutcome,
    restored: Artifacts,
    unrestored: Artifacts,
    validationExit: Option<int>,
    delivery: (Option<string>, string, string),
    ciReady: bool,
    ciState: string)

  /** A handler's outcome and new context.  Validation, remediation, draft_pr and ci
      follow their code; the other phases report any outcome and touch only artifacts. */
  function RunPhase(cfg: Config, phase: PhaseName, ctx: RunContext, inp: HandlerInput): (PhaseOutcome, RunContext) {
    if inp.raises then (Outcome.Failed, ctx)
    else match phase
      case FeatureRequest => (Ok, ctx)
      case Ready => (Ok, ctx)
      case Completed => (Ok, ctx)
      case Validation =>
        if ctx.remediationExhausted then (Outcome.Failed, ctx.(validationExitCode := None))
        else if inp.validationExit.None? then (Skipped, ctx.(validationExitCode := None))
        else (if inp.validationExit.value != 0 then Outcome.Failed else Ok,
              ctx.(validationExitCode := inp.validationExit))
      case Remediation =>
        var next := ctx.remediationAttempts + 1;
        if next > cfg.maxRemediationAttempts then
          (Outcome.Failed, ctx.(remediationAttempts := next, remediationExhausted := true))
        else (Ok, ctx.(remediationAttempts := next))
      case DraftPr =>
        if LocalOnly(cfg) then (Skipped, ctx.(remoteSkippedReason := Some(cfg.localSkipReason)))
        else (Ok, ctx.(prUrl := inp.delivery.0, deliveryBranch := Some(inp.delivery.1),
                       deliveryHeadSha := Some(inp.delivery.2)))
      case Ci =>
        if LocalOnly(cfg) then (Skipped, ctx.(remoteSkippedReason := Some(cfg.localSkipReason)))
        else if ctx.deliveryHeadSha.None? then (Outcome.Failed, ctx.(ciOutcome := Some("blocked")))
        else if inp.ciReady then (Ok, ctx.(ciOutcome := Some("ready")))
        else (Outcome.Failed, ctx.(ciOutcome := Some(inp.ciState)))
      case _ => (inp.outcome, ctx.(restored := inp.restored, unrestored := inp.unrestored))
  }

  function FreshContext(cfg: Config, runId: string, feature: string, repo: string): RunContext {
    RunContext(runId, feature, repo, map[], None, None, None, None, None, 0, false, map[],
               if LocalOnly(cfg) then Some(cfg.localSkipReason) else None)
  }

  /** The persisted snapshot holds every field; the rebuild reads only some of them. */
  function ContextFromPersisted(runId: string, p: RunContext): RunContext {
    RunContext(runId, p.featureDescription, p.repoPath, p.restored, p.validationExitCode,
               p.prUrl, p.ciOutcome, None, None, 0, false, map[], None)
  }

  // ---- One process ----------------------------------------------------------

  /** How one phase ends as the loop sees it: the process dies before recording the
      outcome, an exception outside the handler (a lost lease, say) stops the run, or
      the handler returns, possibly overruled by an exhausted budget, and afterwards the
      process goes on, dies, or fails on an exception. */
  datatype PhaseEnd =
    | Dies
    | Raises
    | Returns(inp: HandlerInput, budgetExhausted: bool, after: After)

  datatype After = GoesOn | DiesAfter | RaisesAfter

  datatype Terminal = RunCompleted | RunFailed | RunBlocked | RunPaused | NoResult

  /** What a process wrote to the ledger, and the result it returned. */
  datatype Report = Report(ops: seq<Op>, terminal: Terminal)

  type World = PhaseName -> PhaseEnd

  function RecordedOutcome(cfg: Config, phase: PhaseName, ctx: RunContext, e: PhaseEnd): (PhaseOutcome, RunContext)
    requires e.Returns?
  {
    var (outcome, next) := RunPhase(cfg, phase, ctx, e.inp);
    (if e.budgetExhausted then Outcome.Blocked else outcome, next)
  }

  function RecordOp(runId: string, phase: PhaseName, outcome: Outcome, ctx: RunContext): Op {
    RecordPhaseOp(runId, PhaseChange(Named(phase), outcome, 0), Some(ctx))
  }

  function HaltState(o: PhaseOutcome): RunState {
    match o
    case Failed => RunState.Failed
    case Blocked => RunState.Blocked
    case _ => RunState.Paused
  }

  function HaltTerminal(o: PhaseOutcome): Terminal {
    match o
    case Failed => RunFailed
    case Blocked => RunBlocked
    case _ => RunPaused
  }

  /** What follows a recorded outcome: the state the run is marked with, if any, and the
      result the loop stops with, if it stops. */
  function Verdict(phase: PhaseName, outcome: PhaseOutcome, after: After): (v: (Option<RunState>, Option<Terminal>))
    ensures v.1.None? <==> after == GoesOn && Succeeded(outcome)
    ensures v.0 == Some(Complete) <==> after == GoesOn && Succeeded(outcome) && phase == Completed
    ensures v.1 != Some(RunCompleted)
  {
    match after
    case DiesAfter => (None, Some(NoResult))
    case RaisesAfter => (Some(RunState.Failed), Some(RunFailed))
    case GoesOn =>
      if !Succeeded(outcome) then (Some(HaltState(outcome)), Some(HaltTerminal(outcome)))
      else (if phase == Completed then Some(Complete) else None, None)
  }

  /** One iteration: what it writes, the context it hands on, and how it stops the loop. */
  datatype Iteration = Iteration(ops: seq<Op>, ctx: RunContext, stop: Option<Terminal>)

  function RecordAndMark(runId: string, phase: PhaseName, outcome: Outcome, ctx: RunContext, mark: Option<RunState>): seq<Op> {
    var record := RecordOp(runId, phase, outcome, ctx);
    if mark.Some? then [record, MarkOp(runId, mark.value)] else [record]
  }

  function Iterate(cfg: Config, runId: string, phase: PhaseName, ctx: RunContext, e: PhaseEnd): Iteration {
    match e
    case Dies => Iteration([], ctx, Some(NoResult))
    case Raises => Iteration([MarkOp(runId, RunState.Failed)], ctx, Some(RunFailed))
    case Returns(_, _, after) =>
      var (outcome, next) := RecordedOutcome(cfg, phase, ctx, e);
      var (mark, stop) := Verdict(phase, outcome, after);
      Iteration(RecordAndMark(runId, phase, outcome, next, mark), next, stop)
  }

  /** The phase loop from phase `i` on. */
  function PhaseLoop(cfg: Config, runId: string, i: nat, ctx: RunContext, world: World): Report
    requires i <= PHASES
    decreases PHASES - i
  {
    if i == PHASES then Report([], RunCompleted)
    else
      var step := Iterate(cfg, runId, PHASE_SEQUENCE[i], ctx, world(PHASE_SEQUENCE[i]));
      if step.stop.Some? then Report(step.ops, step.stop.value)
      else
        var rest := PhaseLoop(cfg, runId, i + 1, step.ctx, world);
        Report(step.ops + rest.ops, rest.terminal)
  }

  /** Where the next process picks the run up; `None` refuses an unknown phase. */
  function ResumeIndex(rec: RunRecord): (i: Option<nat>)
    ensures i.Some? ==> i.value <= PHASES
  {
    if rec.cursor.Some? then
      var c := rec.cursor.value;
      if c.currentPhase.Other? then None
      else if c.phaseOutcome in {Outcome.Failed, Outcome.Blocked, Outcome.Paused} then
        Some(PhaseIndex(c.currentPhase.name))
      else
        var last := DerivedPhase(c);
        Some((if last.Named? then PhaseIndex(last.name) else PhaseIndex(c.currentPhase.name)) + 1)
    else if rec.phase.Some? then
      if rec.phase.value.Other? then None else Some(PhaseIndex(rec.phase.value.name) + 1)
    else Some(0)
  }

  /** How far a process gets before its loop: it can die after marking the resume, and
      it stops after the start record when it dies or another worker holds the lease. */
  datatype Entry = EntersLoop | StopsAfterStart | StopsAfterMark

  datatype RunInput = RunInput(cfg: Config, entry: Entry, world: World)

  function StartRun(runId: string, feature: string, repo: string, key: string, inp: RunInput): Report {
    if feature == "" || repo == "" then Report([], NoResult)
    else
      var begin := Start(runId, repo, key, Some(feature));
      if inp.entry != EntersLoop then Report([begin], NoResult)
      else
        var loop := PhaseLoop(inp.cfg, runId, 0, FreshContext(inp.cfg, runId, feature, repo), inp.world);
        Report([begin] + loop.ops, loop.terminal)
  }

  function FeatureOf(rec: RunRecord): string {
    if rec.featureDescription.Some? && rec.featureDescription.value != ""
    then rec.featureDescription.value else "resume:" + rec.runId
  }

  function ResumeContext(cfg: Config, rec: RunRecord): RunContext {
    if rec.ctx.Some? then ContextFromPersisted(rec.runId, rec.ctx.value)
    else FreshContext(cfg, rec.runId, FeatureOf(rec), rec.repository)
  }

  /** Resuming refuses a completed or cancelled run.  Otherwise it marks the run as
      running, checks for drift and for an unknown phase, starts the run again under its
      own id (with an empty key) and enters the loop at the resume index. */
  function ResumeRun(rec: RunRecord, inp: RunInput): Report {
    if rec.state == Complete || rec.state == Cancelled then Report([], NoResult)
    else
      var mark := MarkOp(rec.runId, Running);
      var feature := FeatureOf(rec);
      var drift := rec.featureDescription.Some? && rec.featureDescription.value != feature;
      if inp.entry == StopsAfterMark || drift || ResumeIndex(rec).None? then Report([mark], NoResult)
      else
        var begin := Start(rec.runId, rec.repository, "", Some(feature));
        if inp.entry == StopsAfterStart then Report([mark, begin], NoResult)
        else
          var loop := PhaseLoop(inp.cfg, rec.runId, ResumeIndex(rec).value, ResumeContext(inp.cfg, rec), inp.world);
          Report([mark, begin] + loop.ops, loop.terminal)
  }

  // ---- The orchestrator object ----------------------------------------------

  function Calls(ops: seq<Op>): (es: seq<Event>)
    ensures |es| == |ops|
  {
    seq(|ops|, i requires 0 <= i < |ops| => Call(ops[i]))
  }

  lemma OneEvent(s: Ledger, e: Event)
    ensures Run(s, [e]) == Step(s, e)
  {
    assert [e][1..] == [];
  }

  /** The ledger after some calls, with only the lines they wrote. */
  function Following(index: Index, ops: seq<Op>): Ledger {
    Run(Ledger(index, []), Calls(ops))
  }

  function Chunks(lines: seq<Line>): seq<Chunk> {
    seq(|lines|, i requires 0 <= i < |lines| => Terminated(lines[i]))
  }

  lemma FollowingNone(index: Index)
    ensures Following(index, []) == Ledger(index, []) && Chunks([]) == []
  {
  }

  lemma FollowingSnoc(index: Index, ops: seq<Op>, op: Op)
    ensures var before, a := Following(index, ops), Apply(Following(index, ops).index, op);
            && Following(index, ops + [op]) == Ledger(a.index, before.lines + Lines(a.written))
            && Chunks(before.lines + Lines(a.written)) ==
               Chunks(before.lines) + (if a.written.Some? then [Terminated(a.written.value)] else [])
  {
    assert Calls(ops + [op]) == Calls(ops) + [Call(op)];
    RunConcat(Ledger(index, []), Calls(ops), [Call(op)]);
    OneEvent(Following(index, ops), Call(op));
  }

  /** A report made of calls already written and the report of the rest. */
  ghost predicate Splits(whole: Report, written: seq<Op>, rest: Report) {
    whole.ops == written + rest.ops && whole.terminal == rest.terminal
  }

  lemma SplitsOn(whole: Report, written: seq<Op>, cfg: Config, r: string, i: nat, ctx: RunContext, world: World)
    requires i < PHASES
    ensures var step := Iterate(cfg, r, PHASE_SEQUENCE[i], ctx, world(PHASE_SEQUENCE[i]));
            Splits(whole, written, PhaseLoop(cfg, r, i, ctx, world)) ==>
              if step.stop.Some? then whole == Report(written + step.ops, step.stop.value)
              else Splits(whole, written + step.ops, PhaseLoop(cfg, r, i + 1, step.ctx, world))
  {
  }

  /** Only the index decides what calls do, so the object's lines extend any log. */
  lemma {:induction false} FollowingExtendsAnyLog(s: Ledger, ops: seq<Op>)
    ensures var f := Following(s.index, ops);
            Run(s, Calls(ops)) == Ledger(f.index, s.lines + f.lines)
    decreases |ops|
  {
    if ops == [] {
      assert s.lines + [] == s.lines;
    } else {
      var n := |ops| - 1;
      FollowingExtendsAnyLog(s, ops[..n]);
      FollowingSnoc(s.index, ops[..n], ops[n]);
      assert ops == ops[..n] + [ops[n]];
      assert Calls(ops) == Calls(ops[..n]) + [Call(ops[n])];
      RunConcat(s, Calls(ops[..n]), [Call(ops[n])]);
      OneMoreCall(s, Following(s.index, ops[..n]), ops[n]);
    }
  }

  lemma OneMoreCall(s: Ledger, f: Ledger, op: Op)
    ensures var t := Ledger(f.index, s.lines + f.lines);
            var a := Apply(f.index, op);
            Run(t, [Call(op)]) == Ledger(a.index, s.lines + (f.lines + Lines(a.written)))
  {
    var written := Lines(Apply(f.index, op).written);
    OneEvent(Ledger(f.index, s.lines + f.lines), Call(op));
    assert (s.lines + f.lines) + written == s.lines + (f.lines + written);
  }

  class Orchestrator {
    const ledger: FileRunLedger

    constructor (ledger: FileRunLedger)
      ensures this.ledger == ledger
    {
      this.ledger := ledger;
    }

    /** The ledger moved from `index` and `file` by exactly these calls. */
    ghost predicate Reached(index: Index, file: seq<Chunk>, ops: seq<Op>)
      reads ledger
    {
      ledger.index == Following(index, ops).index && ledger.file == file + Chunks(Following(index, ops).lines)
    }

    method Mark(runId: string, state: RunState, ghost index: Index, ghost file: seq<Chunk>, ghost before: seq<Op>)
      requires Reached(index, file, before)
      modifies ledger
      ensures Reached(index, file, before + [MarkOp(runId, state)])
    {
      var _ := ledger.Mark(runId, state, None, None);
      FollowingSnoc(index, before, MarkOp(runId, state));
    }

    method Record(runId: string, phase: PhaseName, outcome: PhaseOutcome, ctx: RunContext,
                  ghost index: Index, ghost file: seq<Chunk>, ghost before: seq<Op>)
      requires Reached(index, file, before)
      modifies ledger
      ensures Reached(index, file, before + [RecordOp(runId, phase, outcome, ctx)])
    {
      var _ := ledger.RecordPhase(runId, PhaseChange(Named(phase), outcome, 0), Some(ctx), None);
      FollowingSnoc(index, before, RecordOp(runId, phase, outcome, ctx));
    }

    /** One iteration.  The outcome is recorded before the loop decides whether to
        stop, and the halting or completing state is marked after that. */
    method RunOnePhase(cfg: Config, runId: string, phase: PhaseName, ctx: RunContext, e: PhaseEnd,
                       ghost index: Index, ghost file: seq<Chunk>, ghost before: seq<Op>)
      returns (next: RunContext, stop: Option<Terminal>)
      requires Reached(index, file, before)
      modifies ledger
      ensures var step := Iterate(cfg, runId, phase, ctx, e);
              Reached(index, file, before + step.ops) && next == step.ctx && stop == step.stop
    {
      next := ctx;
      assert before + [] == before;
      match e
      case Dies =>
        return next, Some(NoResult);
      case Raises =>
        Mark(runId, RunState.Failed, index, file, before);
        return next, Some(RunFailed);
      case Returns(inp, budgetExhausted, after) =>
        var (reported, handed) := RunPhase(cfg, phase, ctx, inp);
        next := handed;
        var outcome: PhaseOutcome := if budgetExhausted then Outcome.Blocked else reported;
        Record(runId, phase, outcome, next, index, file, before);
        ghost var record := RecordOp(runId, phase, outcome, next);
        if after == DiesAfter {
          return next, Some(NoResult);
        }
        if after == GoesOn && Succeeded(outcome) && phase != Completed {
          return next, None;
        }
        var state := if after == RaisesAfter then RunState.Failed
                     else if !Succeeded(outcome) then HaltState(outcome) else Complete;
        Mark(runId, state, index, file, before + [record]);
        assert before + [record] + [MarkOp(runId, state)] == before + [record, MarkOp(runId, state)];
        stop := if after == RaisesAfter then Some(RunFailed)
                else if !Succeeded(outcome) then Some(HaltTerminal(outcome)) else None;
    }

    /** The phase loop. */
    method RunPhases(cfg: Config, runId: string, first: nat, firstCtx: RunContext, world: World,
                     ghost index: Index, ghost file: seq<Chunk>, ghost before: seq<Op>)
      returns (terminal: Terminal)
      requires first <= PHASES && Reached(index, file, before)
      modifies ledger
      ensures Reached(index, file, before + PhaseLoop(cfg, runId, first, firstCtx, world).ops)
      ensures terminal == PhaseLoop(cfg, runId, first, firstCtx, world).terminal
    {
      ghost var whole := Report(before + PhaseLoop(cfg, runId, first, firstCtx, world).ops,
                                PhaseLoop(cfg, runId, first, firstCtx, world).terminal);
      ghost var ops := before;
      var ctx := firstCtx;
      var i := first;
      while i < PHASES
        invariant first <= i <= PHASES
        invariant Reached(index, file, ops)
        invariant Splits(whole, ops, PhaseLoop(cfg, runId, i, ctx, world))
      {
        SplitsOn(whole, ops, cfg, runId, i, ctx, world);
        ghost var step := Iterate(cfg, runId, PHASE_SEQUENCE[i], ctx, world(PHASE_SEQUENCE[i])).ops;
        var next, stop := RunOnePhase(cfg, runId, PHASE_SEQUENCE[i], ctx, world(PHASE_SEQUENCE[i]), index, file, ops);
        ops := ops + step;
        if stop.Some? {
          return stop.value;
        }
        ctx := next;
        i := i + 1;
      }
      terminal := RunCompleted;
      assert ops + [] == ops;
    }

    /** A first start of a run. */
    method Start(runId: string, feature: string, repo: string, key: string, inp: RunInput)
      returns (terminal: Terminal)
      modifies ledger
      ensures Reached(old(ledger.index), old(ledger.file), StartRun(runId, feature, repo, key, inp).ops)
      ensures terminal == StartRun(runId, feature, repo, key, inp).terminal
    {
      ghost var index, file := ledger.index, ledger.file;
      FollowingNone(index);
      if feature == "" || repo == "" {
        return NoResult;
      }
      ghost var begin := Op.Start(runId, repo, key, Some(feature));
      var _ := ledger.RecordStart(runId, repo, key, Some(feature));
      FollowingSnoc(index, [], begin);
      assert [] + [begin] == [begin];
      if inp.entry != EntersLoop {
        return NoResult;
      }
      terminal := RunPhases(inp.cfg, runId, 0, FreshContext(inp.cfg, runId, feature, repo), inp.world,
                            index, file, [begin]);
    }

    /** Resumes a run from its record; nothing happens for an unknown run. */
    method Resume(runId: string, inp: RunInput) returns (terminal: Terminal)
      requires runId in ledger.index ==> ledger.index[runId].runId == runId
      modifies ledger
      ensures runId !in old(ledger.index) ==>
                terminal == NoResult && ledger.index == old(ledger.index) && ledger.file == old(ledger.file)
      ensures runId in old(ledger.index) ==>
                && Reached(old(ledger.index), old(ledger.file), ResumeRun(old(ledger.index)[runId], inp).ops)
                && terminal == ResumeRun(old(ledger.index)[runId], inp).terminal
    {
      ghost var index, file := ledger.index, ledger.file;
      FollowingNone(index);
      if runId !in ledger.index {
        return NoResult;
      }
      var rec := ledger.index[runId];
      if rec.state == Complete || rec.state == Cancelled {
        return NoResult;
      }
      ghost var mark, begin := MarkOp(runId, Running), Op.Start(runId, rec.repository, "", Some(FeatureOf(rec)));
      var _ := ledger.Mark(runId, Running, None, None);
      FollowingSnoc(index, [], mark);
      assert [] + [mark] == [mark];
      var feature := FeatureOf(rec);
      if inp.entry == StopsAfterMark || (rec.featureDescription.Some? && rec.featureDescription.value != feature) {
        return NoResult;
      }
      var first := ResumeIndex(rec);
      if first.None? {
        return NoResult;
      }
      var _ := ledger.RecordStart(runId, rec.repository, "", Some(feature));
      FollowingSnoc(index, [mark], begin);
      assert [mark] + [begin] == [mark, begin];
      if inp.entry == StopsAfterStart {
        return NoResult;
      }
      terminal := RunPhases(inp.cfg, runId, first.value, ResumeContext(inp.cfg, rec), inp.world,
                            index, file, [mark, begin]);
    }

    /** Cancels a run that is known and not complete. */
    method Cancel(runId: string) returns (done: bool)
      modifies ledger
      ensures done <==> runId in old(ledger.index) && old(ledger.index)[runId].state != Complete
      ensures Reached(old(ledger.index), old(ledger.file), if done then [MarkOp(runId, Cancelled)] else [])
    {
      ghost var index := ledger.index;
      FollowingNone(index);
      done := runId in ledger.index && ledger.index[runId].state != Complete;
      if done {
        var _ := ledger.Mark(runId, Cancelled, None, None);
        FollowingSnoc(index, [], MarkOp(runId, Cancelled));
        assert [] + [MarkOp(runId, Cancelled)] == [MarkOp(runId, Cancelled)];
      }
    }
  }
}
