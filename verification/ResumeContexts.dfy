/** Which context a resume goes on from, and which artifacts a run keeps over a chain. */
module ResumeContexts {
  import opened Records
  import opened FileLedger
  import opened LedgerHistory
  import opened Orchestration
  import opened ResumeChains
  import opened Completion
  import opened RecordHistory

  // ---- The context a resume goes on from --------------------------------------

  /** A resume reads back the request, the restored artifacts, the validation exit code, the
      pull request and the ci verdict.  The rest starts over: remediation, the delivery
      branch and head SHA, and the artifacts that are not restored. */
  ghost predicate RebuiltFrom(x: RunContext, r: string, c: RunContext) {
    && x.runId == r && x.featureDescription == c.featureDescription && x.repoPath == c.repoPath
    && x.restored == c.restored && x.validationExitCode == c.validationExitCode
    && x.prUrl == c.prUrl && x.ciOutcome == c.ciOutcome
    && x.deliveryBranch.None? && x.deliveryHeadSha.None? && x.remoteSkippedReason.None?
    && x.unrestored == map[] && x.remediationAttempts == 0 && !x.remediationExhausted
  }

  /** A resume without a recorded context starts from the request alone. */
  ghost predicate StartsOver(cfg: Config, x: RunContext, r: string, feature: string, repo: string) {
    && x.runId == r && x.featureDescription == feature && x.repoPath == repo
    && x.restored == map[] && x.unrestored == map[] && x.validationExitCode.None?
    && x.prUrl.None? && x.ciOutcome.None? && x.deliveryBranch.None? && x.deliveryHeadSha.None?
    && x.remediationAttempts == 0 && !x.remediationExhausted
    && x.remoteSkippedReason == (if LocalOnly(cfg) then Some(cfg.localSkipReason) else None)
  }

  /** Whatever ledger the record is from: a resume rebuilds its context from the last one
      that a successful call recorded. */
  lemma ResumeRebuildsLastContext(cfg: Config, rec: RunRecord, ops: seq<Op>)
    requires TellsFields(rec, ops)
    ensures match Latest(ops, ContextSet, None)
            case Some(c) => RebuiltFrom(ResumeContext(cfg, rec), rec.runId, c)
            case None => StartsOver(cfg, ResumeContext(cfg, rec), rec.runId, FeatureOf(rec), rec.repository)
  {
  }

  /** Start an unknown run and let any chain follow.  The live record and the replayed one
      hold the context of the last successful phase record, and the next resume goes on from
      exactly that one. */
  lemma ResumeGoesOnFromLastContext(
    s: Ledger, r: string, feature: string, repo: string, key: string, inp: RunInput, es: seq<ChainEvent>, cfg: Config)
    requires Refines(s) && r !in s.index && r != "" && feature != "" && repo != ""
    requires forall i | 0 <= i < |es| :: ConcernsOthers(es[i], r)
    ensures var begin := Calls(StartRun(r, feature, repo, key, inp).ops);
            var begun := Run(s, begin);
            var history := begin + Chain(begun, r, es);
            var t, last := Run(s, history), Latest(Effective(s, history, r), ContextSet, None);
            && t == Run(begun, Chain(begun, r, es)) && r in t.index && t.index[r].ctx == last
            && r in Replay(map[], t.lines) && Replay(map[], t.lines)[r].ctx == last
            && match last
               case Some(c) => RebuiltFrom(ResumeContext(cfg, t.index[r]), r, c)
               case None => StartsOver(cfg, ResumeContext(cfg, t.index[r]), r, FeatureOf(t.index[r]), t.index[r].repository)
  {
    var begin := Calls(StartRun(r, feature, repo, key, inp).ops);
    var begun := Run(s, begin);
    var history := begin + Chain(begun, r, es);
    var t := Run(s, history);
    RunConcat(s, begin, Chain(begun, r, es));
    ResumeIsExact(s, r, feature, repo, key, inp, es);
    ReplayRefinesLive(s, history);
    HistoryTells(s, history, r);
    ResumeRebuildsLastContext(cfg, t.index[r], Effective(s, history, r));
  }

  // ---- Artifacts that survive ---------------------------------------------------

  /** What was settled before phase `i` is the same in both contexts: the validation exit
      code after validation, the restored artifacts after review, the pull request after
      draft_pr. */
  predicate Keeps(i: nat, a: RunContext, b: RunContext) {
    && (i > VALIDATION ==> b.validationExitCode == a.validationExitCode)
    && (i > REVIEW ==> b.restored == a.restored)
    && (i > DRAFT_PR ==> b.prUrl == a.prUrl)
  }

  predicate KeptBy(ops: seq<Op>, i: nat, a: RunContext) {
    forall n | 0 <= n < |ops| && ops[n].Update? && ops[n].ctx.Some? :: Keeps(i, a, ops[n].ctx.value)
  }

  lemma PhaseKeeps(cfg: Config, i: nat, ctx: RunContext, inp: HandlerInput)
    requires i < PHASES
    ensures Keeps(i, ctx, RunPhase(cfg, PHASE_SEQUENCE[i], ctx, inp).1)
  {
  }

  lemma IterationKeeps(cfg: Config, r: string, i: nat, ctx: RunContext, e: PhaseEnd)
    requires i < PHASES
    ensures var step := Iterate(cfg, r, PHASE_SEQUENCE[i], ctx, e);
            KeptBy(step.ops, i, ctx) && Keeps(i, ctx, step.ctx)
  {
    if e.Returns? { PhaseKeeps(cfg, i, ctx, e.inp); }
  }

  lemma KeptConcat(a: seq<Op>, b: seq<Op>, i: nat, ctx: RunContext, next: RunContext)
    requires KeptBy(a, i, ctx) && Keeps(i, ctx, next) && KeptBy(b, i + 1, next)
    ensures KeptBy(a + b, i, ctx)
  {
  }

  lemma {:induction false} LoopKeeps(cfg: Config, r: string, i: nat, ctx: RunContext, world: World)
    requires i <= PHASES
    ensures KeptBy(PhaseLoop(cfg, r, i, ctx, world).ops, i, ctx)
    decreases PHASES - i
  {
    if i < PHASES {
      var step := LoopUnfolds(cfg, r, i, ctx, world);
      IterationKeeps(cfg, r, i, ctx, world(PHASE_SEQUENCE[i]));
      if step.stop.None? {
        LoopKeeps(cfg, r, i + 1, step.ctx, world);
        KeptConcat(step.ops, PhaseLoop(cfg, r, i + 1, step.ctx, world).ops, i, ctx, step.ctx);
      }
    }
  }

  lemma ResumeKeeps(rec: RunRecord, k: nat, inp: RunInput, c: RunContext)
    requires AtIndex(rec, k) && rec.ctx == Some(c)
    ensures KeptBy(ResumeRun(rec, inp).ops, k, c)
  {
    AtIndexResumes(rec, k);
    ResumeShape(rec, inp);
    LoopKeeps(inp.cfg, rec.runId, k, ResumeContext(inp.cfg, rec), inp.world);
  }

  lemma {:induction false} RecordKeeps(rec: RunRecord, ops: seq<Op>, k: nat, c: RunContext)
    requires AllPlain(ops, rec.runId) && KeptBy(ops, k, c)
    requires rec.ctx.Some? && Keeps(k, c, rec.ctx.value)
    ensures RecordRun(rec, ops).ctx.Some? && Keeps(k, c, RecordRun(rec, ops).ctx.value)
    decreases |ops|
  {
    if ops != [] {
      assert KeptBy([ops[0]] + ops[1..], k, c);
      RecordKeeps(RecordStep(rec, ops[0]), ops[1..], k, c);
    }
  }

  lemma StepKeeps(s: Ledger, r: string, k: nat, e: ChainEvent)
    requires Refines(s) && r in s.index && Sound(s.index[r], k) && s.index[r].ctx.Some? && ConcernsOthers(e, r)
    ensures var t := Run(s, EventsOf(s, r, e));
            r in t.index && t.index[r].ctx.Some? && Keeps(k, s.index[r].ctx.value, t.index[r].ctx.value)
  {
    if e.Resume? {
      var rec := s.index[r];
      var j := ResumeProgress(rec, k, e.inp);
      ResumeKeeps(rec, k, e.inp, rec.ctx.value);
      RecordKeeps(rec, ResumeRun(rec, e.inp).ops, k, rec.ctx.value);
      CallsOnRecord(s, r, ResumeRun(rec, e.inp).ops);
    } else {
      OtherEventsKeepRecord(s, r, e);
    }
  }

  /** What a run has settled stays: over any chain from index `k` on, its record keeps the
      validation exit code, the restored artifacts and the pull request of the phases
      before `k`. */
  lemma {:induction false} ArtifactsSurvive(s: Ledger, r: string, k: nat, es: seq<ChainEvent>)
    requires Refines(s) && r in s.index && Sound(s.index[r], k) && s.index[r].ctx.Some?
    requires forall i | 0 <= i < |es| :: ConcernsOthers(es[i], r)
    ensures var t := Run(s, Chain(s, r, es));
            r in t.index && t.index[r].ctx.Some? && Keeps(k, s.index[r].ctx.value, t.index[r].ctx.value)
    decreases |es|
  {
    if es != [] {
      var first := EventsOf(s, r, es[0]);
      StepKeeps(s, r, k, es[0]);
      var j := StepSound(s, r, k, es[0]);
      ReplayRefinesLive(s, first);
      ArtifactsSurvive(Run(s, first), r, j, es[1..]);
      RunConcat(s, first, Chain(Run(s, first), r, es[1..]));
    }
  }
}
