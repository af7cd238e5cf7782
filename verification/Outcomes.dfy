/** What one process makes of a run, told from its inputs alone: when it completes, and
    what the first thing that goes wrong leaves behind. */
module Outcomes {
  import opened Records
  import opened Orchestration
  import opened ResumeChains
  import opened Completion

  /** The phases whose handlers may report any outcome. */
  predicate Free(p: PhaseName) {
    p in {RepositoryDiscovery, Specification, Planning, Implementation, Review}
  }

  /** Nothing goes wrong inside the handler.  `sha` says whether the process knows the head
      SHA when it comes to ci. */
  predicate HandlerSucceeds(cfg: Config, p: PhaseName, inp: HandlerInput, sha: bool) {
    && !inp.raises
    && (Free(p) ==> Succeeded(inp.outcome))
    && (p == Validation ==> inp.validationExit == None || inp.validationExit == Some(0))
    && (p == Ci && !LocalOnly(cfg) ==> sha && inp.ciReady)
  }

  /** Nothing goes wrong in a phase: the process lives, no exception, no exhausted budget. */
  predicate Fine(cfg: Config, p: PhaseName, e: PhaseEnd, sha: bool) {
    e.Returns? && HandlerSucceeds(cfg, p, e.inp, sha) && !e.budgetExhausted && e.after == GoesOn
  }

  predicate FineAt(cfg: Config, n: nat, world: World, sha: bool)
    requires n < PHASES
  {
    Fine(cfg, PHASE_SEQUENCE[n], world(PHASE_SEQUENCE[n]), sha)
  }

  predicate AllFine(cfg: Config, i: nat, j: nat, world: World, sha: bool)
    requires j <= PHASES
  {
    forall n | i <= n < j :: FineAt(cfg, n, world, sha)
  }

  /** A process that enters at or before draft_pr knows the head SHA at ci. */
  predicate KnowsSha(i: nat, ctx: RunContext) {
    i <= DRAFT_PR || ctx.deliveryHeadSha.Some?
  }

  // ---- The context handed on --------------------------------------------------

  /** What every phase leaves to the next: artifacts and checks. */
  ghost predicate ArtifactsHandedOn(p: PhaseName, inp: HandlerInput, ctx: RunContext, next: RunContext) {
    && next.runId == ctx.runId && next.featureDescription == ctx.featureDescription && next.repoPath == ctx.repoPath
    && next.restored == (if Free(p) then inp.restored else ctx.restored)
    && next.unrestored == (if Free(p) then inp.unrestored else ctx.unrestored)
    && next.validationExitCode == (if p == Validation then inp.validationExit else ctx.validationExitCode)
    && next.remediationAttempts == (if p == Remediation then ctx.remediationAttempts + 1 else ctx.remediationAttempts)
    && next.remediationExhausted == ctx.remediationExhausted
  }

  /** What draft_pr and ci leave: the pull request under the remote policy, the reason for
      skipping under the local one. */
  ghost predicate DeliveryHandedOn(cfg: Config, p: PhaseName, inp: HandlerInput, ctx: RunContext, next: RunContext) {
    && (var (url, branch, sha) := inp.delivery;
        if p == DraftPr && !LocalOnly(cfg)
        then next.prUrl == url && next.deliveryBranch == Some(branch) && next.deliveryHeadSha == Some(sha)
        else next.prUrl == ctx.prUrl && next.deliveryBranch == ctx.deliveryBranch
             && next.deliveryHeadSha == ctx.deliveryHeadSha)
    && next.remoteSkippedReason ==
       (if p in {DraftPr, Ci} && LocalOnly(cfg) then Some(cfg.localSkipReason) else ctx.remoteSkippedReason)
  }

  /** The context after phase `p` succeeded with these inputs. */
  ghost predicate HandedOn(cfg: Config, p: PhaseName, inp: HandlerInput, ctx: RunContext, next: RunContext) {
    && ArtifactsHandedOn(p, inp, ctx, next) && DeliveryHandedOn(cfg, p, inp, ctx, next)
    && next.ciOutcome == (if p == Ci && !LocalOnly(cfg) then Some("ready") else ctx.ciOutcome)
  }

  /** No remediation has used up the limit before phase `p`. */
  predicate Unspent(ctx: RunContext, p: PhaseName) {
    !ctx.remediationExhausted && (p == Remediation ==> ctx.remediationAttempts == 0)
  }

  lemma RestrainedIsUnspent(ctx: RunContext, i: nat)
    requires i < PHASES && Restrained(ctx, i)
    ensures Unspent(ctx, PHASE_SEQUENCE[i]) && (PHASE_SEQUENCE[i] == Ci <==> i == CI)
  {
  }

  /** A handler reports a success exactly if nothing goes wrong in it. */
  lemma ReportsSuccessIff(cfg: Config, p: PhaseName, ctx: RunContext, inp: HandlerInput)
    requires Unspent(ctx, p)
    ensures Succeeded(RunPhase(cfg, p, ctx, inp).0) <==> HandlerSucceeds(cfg, p, inp, ctx.deliveryHeadSha.Some?)
  {
  }

  lemma StaysRestrained(cfg: Config, i: nat, ctx: RunContext, inp: HandlerInput)
    requires i < PHASES && Restrained(ctx, i)
    ensures Restrained(RunPhase(cfg, PHASE_SEQUENCE[i], ctx, inp).1, i + 1)
  {
    PhaseRestrains(cfg, cfg, i, ctx, inp);
  }

  lemma HandsOnArtifacts(cfg: Config, p: PhaseName, ctx: RunContext, inp: HandlerInput)
    requires Unspent(ctx, p) && !inp.raises
    ensures ArtifactsHandedOn(p, inp, ctx, RunPhase(cfg, p, ctx, inp).1)
  {
  }

  lemma HandsOnDelivery(cfg: Config, p: PhaseName, ctx: RunContext, inp: HandlerInput)
    requires Unspent(ctx, p) && !inp.raises
    ensures DeliveryHandedOn(cfg, p, inp, ctx, RunPhase(cfg, p, ctx, inp).1)
  {
  }

  /** The verdict of ci, as the context holds it. */
  lemma HandsOnVerdict(cfg: Config, p: PhaseName, ctx: RunContext, inp: HandlerInput)
    requires Unspent(ctx, p) && !inp.raises
    ensures RunPhase(cfg, p, ctx, inp).1.ciOutcome ==
            if p != Ci || LocalOnly(cfg) then ctx.ciOutcome
            else Some(if ctx.deliveryHeadSha.None? then "blocked" else if inp.ciReady then "ready" else inp.ciState)
  {
  }

  /** An exception leaves the context as it was. */
  lemma ExceptionHandsOnNothing(cfg: Config, p: PhaseName, ctx: RunContext, inp: HandlerInput)
    requires inp.raises
    ensures RunPhase(cfg, p, ctx, inp).1 == ctx
  {
  }

  /** One phase goes on to the next exactly if it is fine, and it hands on its context. */
  lemma GoesOnIffFine(cfg: Config, r: string, i: nat, ctx: RunContext, e: PhaseEnd)
    requires i < PHASES && Restrained(ctx, i)
    ensures var p, step := PHASE_SEQUENCE[i], Iterate(cfg, r, PHASE_SEQUENCE[i], ctx, e);
            && (step.stop.None? <==> Fine(cfg, p, e, ctx.deliveryHeadSha.Some?))
            && (step.stop.None? ==> HandedOn(cfg, p, e.inp, ctx, step.ctx) && Restrained(step.ctx, i + 1))
  {
    var p := PHASE_SEQUENCE[i];
    RestrainedIsUnspent(ctx, i);
    if e.Returns? {
      ReportsSuccessIff(cfg, p, ctx, e.inp);
      if !e.inp.raises {
        StaysRestrained(cfg, i, ctx, e.inp);
        HandsOnArtifacts(cfg, p, ctx, e.inp);
        HandsOnDelivery(cfg, p, ctx, e.inp);
        HandsOnVerdict(cfg, p, ctx, e.inp);
      }
    }
  }

  /** Knowing the SHA at ci does not change on the way there. */
  lemma ShaKnowledge(cfg: Config, i: nat, ctx: RunContext, inp: HandlerInput, next: RunContext)
    requires i < PHASES && DeliveryHandedOn(cfg, PHASE_SEQUENCE[i], inp, ctx, next)
    ensures !LocalOnly(cfg) ==> KnowsSha(i + 1, next) == KnowsSha(i, ctx)
    ensures i == CI ==> KnowsSha(i, ctx) == ctx.deliveryHeadSha.Some?
  {
  }

  lemma FineHere(cfg: Config, i: nat, e: PhaseEnd, ctx: RunContext)
    requires i < PHASES
    ensures Fine(cfg, PHASE_SEQUENCE[i], e, ctx.deliveryHeadSha.Some?) <==> Fine(cfg, PHASE_SEQUENCE[i], e, KnowsSha(i, ctx))
  {
    assert PHASE_SEQUENCE[i] == Ci <==> i == CI;
  }

  // ---- Completion -------------------------------------------------------------

  lemma AllFineSplits(cfg: Config, i: nat, j: nat, world: World, sha: bool)
    requires i < j <= PHASES
    ensures AllFine(cfg, i, j, world, sha) <==>
              FineAt(cfg, i, world, sha) && AllFine(cfg, i + 1, j, world, sha)
  {
  }

  lemma AllFineLocally(cfg: Config, i: nat, j: nat, world: World, a: bool, b: bool)
    requires j <= PHASES && (LocalOnly(cfg) || a == b)
    ensures AllFine(cfg, i, j, world, a) == AllFine(cfg, i, j, world, b)
  {
    assert forall n | i <= n < j :: FineAt(cfg, n, world, a) == FineAt(cfg, n, world, b);
  }

  lemma NeverCompletesEarly(cfg: Config, r: string, i: nat, ctx: RunContext, e: PhaseEnd)
    requires i < PHASES
    ensures Iterate(cfg, r, PHASE_SEQUENCE[i], ctx, e).stop != Some(RunCompleted)
  {
  }

  /** Completion is returned exactly if every phase from `i` on is fine. */
  ghost predicate CompletesIfFine(cfg: Config, r: string, i: nat, ctx: RunContext, world: World)
    requires i <= PHASES
  {
    PhaseLoop(cfg, r, i, ctx, world).terminal == RunCompleted <==> AllFine(cfg, i, PHASES, world, KnowsSha(i, ctx))
  }

  ghost predicate HandsClaimOn(cfg: Config, r: string, i: nat, ctx: RunContext, next: RunContext, world: World)
    requires i < PHASES
  {
    && Restrained(next, i + 1)
    && (CompletesIfFine(cfg, r, i + 1, next, world) ==> CompletesIfFine(cfg, r, i, ctx, world))
  }

  lemma CompletesStep(cfg: Config, r: string, i: nat, ctx: RunContext, world: World) returns (next: Option<RunContext>)
    requires i < PHASES && Restrained(ctx, i)
    ensures next.None? ==> CompletesIfFine(cfg, r, i, ctx, world)
    ensures next.Some? ==> HandsClaimOn(cfg, r, i, ctx, next.value, world)
  {
    var e := world(PHASE_SEQUENCE[i]);
    var step := LoopUnfolds(cfg, r, i, ctx, world);
    GoesOnIffFine(cfg, r, i, ctx, e);
    FineHere(cfg, i, e, ctx);
    AllFineSplits(cfg, i, PHASES, world, KnowsSha(i, ctx));
    NeverCompletesEarly(cfg, r, i, ctx, e);
    next := if step.stop.None? then Some(step.ctx) else None;
    if step.stop.None? {
      ShaKnowledge(cfg, i, ctx, e.inp, step.ctx);
      AllFineLocally(cfg, i + 1, PHASES, world, KnowsSha(i, ctx), KnowsSha(i + 1, step.ctx));
    }
  }

  /** The loop returns completion exactly if every phase from its entry on is fine. */
  lemma LoopCompletesIff(cfg: Config, r: string, i: nat, ctx: RunContext, world: World)
    requires i <= PHASES && Restrained(ctx, i)
    ensures CompletesIfFine(cfg, r, i, ctx, world)
  {
    var ready := (k: nat, c: RunContext) => Restrained(c, k);
    var holds := (k: nat, c: RunContext) => k <= PHASES && CompletesIfFine(cfg, r, k, c, world);
    var leads := (k: nat, c: RunContext, d: RunContext) => k < PHASES && HandsClaimOn(cfg, r, k, c, d, world);
    forall k: nat, c | k < PHASES && ready(k, c) ensures holds(k, c) || exists d :: leads(k, c, d) {
      var next := CompletesStep(cfg, r, k, c, world);
      assert next.Some? ==> leads(k, c, next.value);
    }
    ByPhases(PHASES, ready, holds, leads, i, ctx);
  }

  /** A start returns completion exactly if it enters its loop and all twelve phases are
      fine. */
  lemma StartCompletesIff(r: string, feature: string, repo: string, key: string, inp: RunInput)
    ensures StartRun(r, feature, repo, key, inp).terminal == RunCompleted <==>
              && feature != "" && repo != "" && inp.entry == EntersLoop
              && AllFine(inp.cfg, 0, PHASES, inp.world, true)
  {
    LoopCompletesIff(inp.cfg, r, 0, FreshContext(inp.cfg, r, feature, repo), inp.world);
  }

  /** A resume returns completion exactly if it enters its loop and all phases from its
      entry on are fine; the head SHA is never known to a process that enters at ci. */
  lemma ResumeCompletesIff(rec: RunRecord, k: nat, inp: RunInput)
    requires Sound(rec, k)
    ensures ResumeRun(rec, inp).terminal == RunCompleted <==>
              && Resumable(rec) && inp.entry == EntersLoop
              && AllFine(inp.cfg, k, PHASES, inp.world, k <= DRAFT_PR)
  {
    AtIndexResumes(rec, k);
    var ctx := ResumeContext(inp.cfg, rec);
    assert KnowsSha(k, ctx) == (k <= DRAFT_PR);
    LoopCompletesIff(inp.cfg, rec.runId, k, ctx, inp.world);
  }

  // ---- The first thing that goes wrong ----------------------------------------

  /** The state and the result that an unsuccessful outcome stops a run with. */
  predicate Halts(o: Outcome, state: RunState, terminal: Terminal) {
    || (o == Outcome.Failed && state == RunState.Failed && terminal == RunFailed)
    || (o == Outcome.Blocked && state == RunState.Blocked && terminal == RunBlocked)
    || (o == Outcome.Paused && state == RunState.Paused && terminal == RunPaused)
  }

  /** What an unsuccessful phase is recorded as: an exhausted budget blocks it whatever its
      handler reported, an exception or a failed check fails it, and the phases that may
      report any outcome are taken at their word. */
  predicate RecordedAs(p: PhaseName, inp: HandlerInput, budgetExhausted: bool, o: Outcome) {
    o == if budgetExhausted then Outcome.Blocked
         else if inp.raises || !Free(p) then Outcome.Failed
         else inp.outcome
  }

  /** Whether a phase that is not fine is recorded as a success all the same: the process
      dies or fails on an exception after that. */
  predicate SucceedsAt(cfg: Config, p: PhaseName, e: PhaseEnd, sha: bool) {
    e.Returns? && HandlerSucceeds(cfg, p, e.inp, sha) && !e.budgetExhausted
  }

  /** What phase `p` leaves behind if it is the first that is not fine. */
  ghost predicate Stopped(cfg: Config, p: PhaseName, e: PhaseEnd, sha: bool, terminal: Terminal, after: RunRecord) {
    match e
    case Dies => terminal == NoResult
    case Raises => terminal == RunFailed && after.state == RunState.Failed
    case Returns(inp, budgetExhausted, follow) =>
      && after.cursor.Some? && after.cursor.value.currentPhase == Named(p)
      && (SucceedsAt(cfg, p, e, sha) ==> Succeeded(after.cursor.value.phaseOutcome))
      && (!SucceedsAt(cfg, p, e, sha) ==> RecordedAs(p, inp, budgetExhausted, after.cursor.value.phaseOutcome))
      && match follow
         case GoesOn => Halts(after.cursor.value.phaseOutcome, after.state, terminal)
         case DiesAfter => after.state == Running && terminal == NoResult
         case RaisesAfter => after.state == RunState.Failed && terminal == RunFailed
  }

  lemma FailureIsRecordedAs(cfg: Config, p: PhaseName, ctx: RunContext, inp: HandlerInput)
    requires Unspent(ctx, p) && !HandlerSucceeds(cfg, p, inp, ctx.deliveryHeadSha.Some?)
    ensures RecordedAs(p, inp, false, RunPhase(cfg, p, ctx, inp).0)
  {
  }

  /** The record after an outcome was recorded, and perhaps marked. */
  lemma AfterRecord(rec: RunRecord, p: PhaseName, outcome: PhaseOutcome, ctx: RunContext, mark: Option<RunState>)
    requires rec.runId != ""
    ensures var ops := RecordAndMark(rec.runId, p, outcome, ctx, mark);
            && AllPlain(ops, rec.runId)
            && var after := RecordRun(rec, ops);
               && after.runId == rec.runId && after.ctx == Some(ctx) && after.cursor.Some?
               && after.cursor.value.currentPhase == Named(p) && after.cursor.value.phaseOutcome == outcome
               && after.state == (if mark.Some? then mark.value else Running)
               && Successes(ops, rec.runId) == (if Succeeded(outcome) then [p] else [])
  {
    var ops := RecordAndMark(rec.runId, p, outcome, ctx, mark);
    var one := RecordStep(rec, ops[0]);
    assert Successes(ops[..1], rec.runId) == SuccessOf(ops[0], rec.runId) + [] by {
      assert ops[..1][1..] == [];
    }
    if mark.Some? {
      assert ops[1..] == [ops[1]] && ops[1..][1..] == [];
      assert RecordRun(rec, ops) == RecordRun(one, [ops[1]]) == RecordStep(one, ops[1]);
      assert Successes([ops[1]], rec.runId) == [];
    } else {
      assert ops[1..] == [] && RecordRun(rec, ops) == one;
    }
  }

  function AddedAt(cfg: Config, p: PhaseName, e: PhaseEnd, sha: bool): seq<PhaseName> {
    if SucceedsAt(cfg, p, e, sha) then [p] else []
  }

  lemma TroublePhase(cfg: Config, rec: RunRecord, j: nat, ctx: RunContext, e: PhaseEnd)
    requires Sound(rec, j) && rec.runId != "" && j < PHASES && Restrained(ctx, j)
    requires !Fine(cfg, PHASE_SEQUENCE[j], e, ctx.deliveryHeadSha.Some?)
    ensures var step, p, sha := Iterate(cfg, rec.runId, PHASE_SEQUENCE[j], ctx, e), PHASE_SEQUENCE[j], ctx.deliveryHeadSha.Some?;
            && step.stop.Some? && AllPlain(step.ops, rec.runId) && RecordRun(rec, step.ops).runId == rec.runId
            && Successes(step.ops, rec.runId) == AddedAt(cfg, p, e, sha)
            && Stopped(cfg, p, e, sha, step.stop.value, RecordRun(rec, step.ops))
  {
    GoesOnIffFine(cfg, rec.runId, j, ctx, e);
    match e
    case Dies =>
    case Raises =>
      MovesOne(rec, MarkOp(rec.runId, RunState.Failed), j);
    case Returns(inp, budgetExhausted, follow) =>
      RestrainedIsUnspent(ctx, j);
      ReportsSuccessIff(cfg, PHASE_SEQUENCE[j], ctx, inp);
      if !HandlerSucceeds(cfg, PHASE_SEQUENCE[j], inp, ctx.deliveryHeadSha.Some?) {
        FailureIsRecordedAs(cfg, PHASE_SEQUENCE[j], ctx, inp);
      }
      var (outcome, next) := RecordedOutcome(cfg, PHASE_SEQUENCE[j], ctx, e);
      AfterRecord(rec, PHASE_SEQUENCE[j], outcome, next, Verdict(PHASE_SEQUENCE[j], outcome, follow).0);
  }

  /** Only ci looks at the SHA, and only under the remote policy. */
  lemma ShaMattersAtCi(cfg: Config, j: nat, e: PhaseEnd, ctx: RunContext, sha: bool)
    requires j < PHASES && (LocalOnly(cfg) || sha == KnowsSha(j, ctx))
    ensures var p, known := PHASE_SEQUENCE[j], ctx.deliveryHeadSha.Some?;
            && Fine(cfg, p, e, sha) == Fine(cfg, p, e, known)
            && SucceedsAt(cfg, p, e, sha) == SucceedsAt(cfg, p, e, known)
  {
    assert PHASE_SEQUENCE[j] == Ci <==> j == CI;
  }

  /** The phases from `i` up to `j` are recorded as successes, and phase `j` leaves the run as
      `Stopped` says. */
  ghost predicate Decides(cfg: Config, rec: RunRecord, i: nat, j: nat, e: PhaseEnd, sha: bool, report: Report)
    requires i <= j < PHASES
  {
    var p := PHASE_SEQUENCE[j];
    && AllPlain(report.ops, rec.runId)
    && Successes(report.ops, rec.runId) == PHASE_SEQUENCE[i..j] + AddedAt(cfg, p, e, sha)
    && Stopped(cfg, p, e, sha, report.terminal, RecordRun(rec, report.ops))
  }

  lemma DecidesLater(cfg: Config, rec: RunRecord, i: nat, ops: seq<Op>, j: nat, e: PhaseEnd, sha: bool, rest: Report)
    requires i < j < PHASES && Moves(rec, ops, i, i + 1)
    requires Decides(cfg, RecordRun(rec, ops), i + 1, j, e, sha, rest)
    ensures Decides(cfg, rec, i, j, e, sha, Report(ops + rest.ops, rest.terminal))
  {
    RecordRunConcat(rec, ops, rest.ops);
    SuccessesConcat(ops, rest.ops, rec.runId);
    var added := AddedAt(cfg, PHASE_SEQUENCE[j], e, sha);
    Slices(i, i + 1, j);
    assert PHASE_SEQUENCE[i..i + 1] + (PHASE_SEQUENCE[i + 1..j] + added) == PHASE_SEQUENCE[i..j] + added;
  }

  lemma DecidesNow(cfg: Config, rec: RunRecord, j: nat, ctx: RunContext, world: World, sha: bool)
    requires Sound(rec, j) && rec.runId != "" && Restrained(ctx, j) && j < PHASES
    requires LocalOnly(cfg) || sha == KnowsSha(j, ctx)
    requires !FineAt(cfg, j, world, sha)
    ensures Decides(cfg, rec, j, j, world(PHASE_SEQUENCE[j]), sha, PhaseLoop(cfg, rec.runId, j, ctx, world))
  {
    var e := world(PHASE_SEQUENCE[j]);
    ShaMattersAtCi(cfg, j, e, ctx, sha);
    TroublePhase(cfg, rec, j, ctx, e);
    var step := LoopUnfolds(cfg, rec.runId, j, ctx, world);
    assert [] + AddedAt(cfg, PHASE_SEQUENCE[j], e, sha) == AddedAt(cfg, PHASE_SEQUENCE[j], e, sha);
  }

  lemma FinePhase(cfg: Config, rec: RunRecord, i: nat, ctx: RunContext, world: World, sha: bool) returns (step: Iteration)
    requires Sound(rec, i) && rec.runId != "" && Restrained(ctx, i) && i < PHASES
    requires LocalOnly(cfg) || sha == KnowsSha(i, ctx)
    requires FineAt(cfg, i, world, sha)
    ensures step.stop.None? && Moves(rec, step.ops, i, i + 1) && Restrained(step.ctx, i + 1)
    ensures LocalOnly(cfg) || sha == KnowsSha(i + 1, step.ctx)
    ensures PhaseLoop(cfg, rec.runId, i, ctx, world) == LoopAfter(cfg, rec.runId, i, step, world)
  {
    var e := world(PHASE_SEQUENCE[i]);
    ShaMattersAtCi(cfg, i, e, ctx, sha);
    GoesOnIffFine(cfg, rec.runId, i, ctx, e);
    step := LoopUnfolds(cfg, rec.runId, i, ctx, world);
    var n := IterationMoves(cfg, rec, i, ctx, e);
    ShaKnowledge(cfg, i, ctx, e.inp, step.ctx);
  }

  /** Where a loop can stand before phase `k`. */
  ghost predicate StandsBefore(cfg: Config, k: nat, at: (RunRecord, RunContext), sha: bool) {
    Sound(at.0, k) && at.0.runId != "" && Restrained(at.1, k) && (LocalOnly(cfg) || sha == KnowsSha(k, at.1))
  }

  ghost predicate LoopDecides(cfg: Config, k: nat, at: (RunRecord, RunContext), world: World, j: nat, sha: bool)
    requires k <= j < PHASES
  {
    Decides(cfg, at.0, k, j, world(PHASE_SEQUENCE[j]), sha, PhaseLoop(cfg, at.0.runId, k, at.1, world))
  }

  ghost predicate Leads(cfg: Config, k: nat, at: (RunRecord, RunContext), next: (RunRecord, RunContext),
                        world: World, j: nat, sha: bool)
    requires k < j < PHASES
  {
    && StandsBefore(cfg, k + 1, next, sha)
    && (LoopDecides(cfg, k + 1, next, world, j, sha) ==> LoopDecides(cfg, k, at, world, j, sha))
  }

  lemma DecidesStep(cfg: Config, k: nat, at: (RunRecord, RunContext), world: World, j: nat, sha: bool)
    returns (next: (RunRecord, RunContext))
    requires k < j < PHASES && StandsBefore(cfg, k, at, sha) && FineAt(cfg, k, world, sha)
    ensures Leads(cfg, k, at, next, world, j, sha)
  {
    var step := FinePhase(cfg, at.0, k, at.1, world, sha);
    next := (RecordRun(at.0, step.ops), step.ctx);
    if LoopDecides(cfg, k + 1, next, world, j, sha) {
      DecidesLater(cfg, at.0, k, step.ops, j, world(PHASE_SEQUENCE[j]), sha,
                   PhaseLoop(cfg, at.0.runId, k + 1, step.ctx, world));
    }
  }

  lemma SomePhaseDecides(cfg: Config, i: nat, at: (RunRecord, RunContext), world: World, j: nat, sha: bool)
    requires i <= j < PHASES && StandsBefore(cfg, i, at, sha)
    requires AllFine(cfg, i, j, world, sha) && !FineAt(cfg, j, world, sha)
    ensures LoopDecides(cfg, i, at, world, j, sha)
  {
    var ready := (k: nat, t: (RunRecord, RunContext)) => i <= k && StandsBefore(cfg, k, t, sha);
    var holds := (k: nat, t: (RunRecord, RunContext)) => k <= j && LoopDecides(cfg, k, t, world, j, sha);
    var leads := (k: nat, t: (RunRecord, RunContext), u: (RunRecord, RunContext)) =>
      i <= k < j && Leads(cfg, k, t, u, world, j, sha);
    forall k: nat, t | k < j && ready(k, t) ensures exists u :: leads(k, t, u) {
      assert FineAt(cfg, k, world, sha);
      var next := DecidesStep(cfg, k, t, world, j, sha);
      assert leads(k, t, next);
    }
    forall t | ready(j, t) ensures holds(j, t) {
      DecidesNow(cfg, t.0, j, t.1, world, sha);
    }
    ByPhases(j, ready, holds, leads, i, at);
  }

  /** The first phase that is not fine decides everything: the phases before it are recorded
      as successes, and it leaves the run as `Stopped` says. */
  lemma FirstTroubleDecides(cfg: Config, rec: RunRecord, i: nat, ctx: RunContext, world: World, j: nat)
    requires Sound(rec, i) && rec.runId != "" && Restrained(ctx, i) && i <= j < PHASES
    requires AllFine(cfg, i, j, world, KnowsSha(i, ctx)) && !FineAt(cfg, j, world, KnowsSha(i, ctx))
    ensures Decides(cfg, rec, i, j, world(PHASE_SEQUENCE[j]), KnowsSha(i, ctx), PhaseLoop(cfg, rec.runId, i, ctx, world))
  {
    SomePhaseDecides(cfg, i, (rec, ctx), world, j, KnowsSha(i, ctx));
  }

  /** A phase whose process returns with an exhausted budget is recorded as blocked whatever
      its handler reported; if the process goes on, the run is blocked and stops there. */
  lemma ExhaustedBudgetBlocks(cfg: Config, rec: RunRecord, i: nat, ctx: RunContext, world: World, j: nat)
    requires Sound(rec, i) && rec.runId != "" && Restrained(ctx, i) && i <= j < PHASES
    requires AllFine(cfg, i, j, world, KnowsSha(i, ctx))
    requires world(PHASE_SEQUENCE[j]).Returns? && world(PHASE_SEQUENCE[j]).budgetExhausted
    ensures var report := PhaseLoop(cfg, rec.runId, i, ctx, world);
            && AllPlain(report.ops, rec.runId) && Successes(report.ops, rec.runId) == PHASE_SEQUENCE[i..j]
            && var after := RecordRun(rec, report.ops);
               && after.cursor.Some? && after.cursor.value.currentPhase == Named(PHASE_SEQUENCE[j])
               && after.cursor.value.phaseOutcome == Outcome.Blocked
               && (world(PHASE_SEQUENCE[j]).after == GoesOn ==>
                     after.state == RunState.Blocked && report.terminal == RunBlocked)
  {
    FirstTroubleDecides(cfg, rec, i, ctx, world, j);
  }

  /** The record when the loop of a resume begins. */
  lemma ResumeBegins(rec: RunRecord, k: nat, inp: RunInput) returns (begun: RunRecord)
    requires Sound(rec, k) && rec.runId != "" && rec.repository != "" && Begins(rec, inp) && inp.entry == EntersLoop
    ensures Sound(begun, k) && begun.runId == rec.runId
    ensures ResumeIndex(rec) == Some(k) && ResumeRun(rec, inp).terminal == LoopOf(rec, inp).terminal
    ensures AllPlain(LoopOf(rec, inp).ops, rec.runId) ==>
              && AllPlain(ResumeRun(rec, inp).ops, rec.runId)
              && RecordRun(rec, ResumeRun(rec, inp).ops) == RecordRun(begun, LoopOf(rec, inp).ops)
  {
    AtIndexResumes(rec, k);
    ResumeShape(rec, inp);
    var pre := [MarkOp(rec.runId, Running), BeginOp(rec)];
    PreludeMoves(rec, k, FeatureOf(rec));
    begun := RecordRun(rec, pre);
    if AllPlain(LoopOf(rec, inp).ops, rec.runId) {
      RecordRunConcat(rec, pre, LoopOf(rec, inp).ops);
    }
  }

  lemma ResumedSha(rec: RunRecord, k: nat, cfg: Config)
    ensures KnowsSha(k, ResumeContext(cfg, rec)) == (k <= DRAFT_PR) && Restrained(ResumeContext(cfg, rec), k)
  {
  }

  /** The same for a resume, over its whole record. */
  lemma ExhaustedResumeBlocks(rec: RunRecord, k: nat, inp: RunInput, j: nat)
    requires Sound(rec, k) && rec.runId != "" && rec.repository != "" && Resumable(rec)
    requires inp.entry == EntersLoop && k <= j < PHASES
    requires AllFine(inp.cfg, k, j, inp.world, k <= DRAFT_PR)
    requires inp.world(PHASE_SEQUENCE[j]).Returns? && inp.world(PHASE_SEQUENCE[j]).budgetExhausted
    requires inp.world(PHASE_SEQUENCE[j]).after == GoesOn
    ensures var report := ResumeRun(rec, inp);
            && report.terminal == RunBlocked && AllPlain(report.ops, rec.runId)
            && var after := RecordRun(rec, report.ops);
               && after.state == RunState.Blocked && after.cursor.Some?
               && after.cursor.value.currentPhase == Named(PHASE_SEQUENCE[j])
               && after.cursor.value.phaseOutcome == Outcome.Blocked
  {
    AtIndexResumes(rec, k);
    ResumedSha(rec, k, inp.cfg);
    var begun := ResumeBegins(rec, k, inp);
    ExhaustedBudgetBlocks(inp.cfg, begun, k, ResumeContext(inp.cfg, rec), inp.world, j);
  }
}
