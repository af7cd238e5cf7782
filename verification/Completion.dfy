/** When a run can still complete: exactly until it is complete or cancelled, all its
    phases are recorded, or it stands before ci without a head SHA. */
module Completion {
  import opened Records
  import opened FileLedger
  import opened LedgerHistory
  import opened Orchestration
  import opened ResumeChains

  const VALIDATION: nat := 5
  const REVIEW: nat := 7
  const DRAFT_PR: nat := 8
  const CI: nat := 9

  lemma PhaseNumbers()
    ensures VALIDATION == PhaseIndex(Validation) && REVIEW == PhaseIndex(Review)
    ensures DRAFT_PR == PhaseIndex(DraftPr) && CI == PhaseIndex(Ci)
  {
  }

  // ---- Resumes at ci --------------------------------------------------------

  predicate NoneSucceeds(ops: seq<Op>, r: string) {
    forall i | 0 <= i < |ops| :: SuccessOf(ops[i], r) == []
  }

  lemma CiFailsWithoutSha(cfg: Config, r: string, ctx: RunContext, e: PhaseEnd)
    requires !LocalOnly(cfg) && ctx.deliveryHeadSha.None?
    ensures var step := Iterate(cfg, r, Ci, ctx, e);
            && step.stop.Some? && step.stop.value in {NoResult, RunFailed, RunBlocked}
            && NoneSucceeds(step.ops, r)
  {
  }

  lemma CiAlone(cfg: Config, r: string, ctx: RunContext, world: World)
    requires Iterate(cfg, r, Ci, ctx, world(Ci)).stop.Some?
    ensures var step := Iterate(cfg, r, Ci, ctx, world(Ci));
            PhaseLoop(cfg, r, CI, ctx, world) == Report(step.ops, step.stop.value)
  {
    assert PHASE_SEQUENCE[CI] == Ci;
  }

  lemma {:induction false} NoSuccesses(ops: seq<Op>, r: string)
    requires NoneSucceeds(ops, r)
    ensures Successes(ops, r) == []
  {
    if ops != [] {
      NoSuccesses(ops[1..], r);
    }
  }

  /** A resume that begins at ci has no head SHA: it records no success and cannot
      return completion. */
  lemma ResumeAtCiFails(rec: RunRecord, inp: RunInput)
    requires AtIndex(rec, CI) && !LocalOnly(inp.cfg)
    ensures var r := ResumeRun(rec, inp);
            Successes(r.ops, rec.runId) == [] && r.terminal in {NoResult, RunFailed, RunBlocked}
  {
    AtIndexResumes(rec, CI);
    var ctx := ResumeContext(inp.cfg, rec);
    CiFailsWithoutSha(inp.cfg, rec.runId, ctx, inp.world(Ci));
    CiAlone(inp.cfg, rec.runId, ctx, inp.world);
    var r := ResumeRun(rec, inp);
    assert NoneSucceeds(r.ops, rec.runId);
    NoSuccesses(r.ops, rec.runId);
  }

  // ---- Doomed runs ----------------------------------------------------------

  /** The run can be resumed at all: not complete, not cancelled, and its description
      does not read as drift. */
  predicate Resumable(rec: RunRecord) {
    rec.state != Complete && rec.state != Cancelled && rec.featureDescription != Some("")
  }

  /** The resume gets as far as its start record. */
  predicate Begins(rec: RunRecord, inp: RunInput) {
    Resumable(rec) && ResumeIndex(rec).Some? && inp.entry != StopsAfterMark
  }

  function BeginOp(rec: RunRecord): Op {
    Start(rec.runId, rec.repository, "", Some(FeatureOf(rec)))
  }

  function LoopOf(rec: RunRecord, inp: RunInput): Report
    requires ResumeIndex(rec).Some?
  {
    PhaseLoop(inp.cfg, rec.runId, ResumeIndex(rec).value, ResumeContext(inp.cfg, rec), inp.world)
  }

  lemma ResumeShape(rec: RunRecord, inp: RunInput)
    ensures var ops, mark := ResumeRun(rec, inp).ops, MarkOp(rec.runId, Running);
            if !Begins(rec, inp) then ops in {[], [mark]}
            else ops == [mark, BeginOp(rec)] + if inp.entry == EntersLoop then LoopOf(rec, inp).ops else []
  {
  }

  /** Something is left to run before phase `k`, and a new process can run it: ci needs
      the local policy (`local`), because it is the process of draft_pr that knows the SHA. */
  predicate Open(rec: RunRecord, k: nat, local: bool) {
    Resumable(rec) && k < PHASES && (local || k != CI)
  }

  /** An incomplete run that no process can complete. */
  ghost predicate Doomed(rec: RunRecord, k: nat, local: bool) {
    Sound(rec, k) && rec.state != Complete && !Open(rec, k, local)
  }

  lemma {:induction false} LastCallDecidesState(rec: RunRecord, ops: seq<Op>)
    requires AllPlain(ops, rec.runId) && ops != []
    ensures var last := ops[|ops| - 1];
            RecordRun(rec, ops).state == if last.Start? then Running else last.state
    decreases |ops|
  {
    if |ops| > 1 {
      LastCallDecidesState(RecordStep(rec, ops[0]), ops[1..]);
    } else {
      assert ops[1..] == [];
    }
  }

  lemma ResumeStaysPut(rec: RunRecord, k: nat, local: bool, inp: RunInput)
    requires Doomed(rec, k, local) && rec.runId != "" && rec.repository != "" && (local || !LocalOnly(inp.cfg))
    ensures Moves(rec, ResumeRun(rec, inp).ops, k, k)
    ensures !Resumable(rec) ==> ResumeRun(rec, inp).ops in {[], [MarkOp(rec.runId, Running)]}
  {
    var j := ResumeProgress(rec, k, inp);
    assert |PHASE_SEQUENCE[k..j]| == j - k;
    AtIndexResumes(rec, k);
    if !Resumable(rec) {
      MovesNot(rec, k);
      MovesOne(rec, MarkOp(rec.runId, Running), k);
    } else if k < PHASES {
      ResumeAtCiFails(rec, inp);
    }
  }

  lemma ResumeStaysDoomed(rec: RunRecord, k: nat, local: bool, inp: RunInput)
    requires Doomed(rec, k, local) && rec.runId != "" && rec.repository != "" && (local || !LocalOnly(inp.cfg))
    ensures Moves(rec, ResumeRun(rec, inp).ops, k, k)
    ensures Doomed(RecordRun(rec, ResumeRun(rec, inp).ops), k, local)
  {
    var ops := ResumeRun(rec, inp).ops;
    ResumeStaysPut(rec, k, local, inp);
    AtIndexResumes(rec, k);
    if ops != [] {
      LastCallDecidesState(rec, ops);
    }
    if ops == [MarkOp(rec.runId, Running)] {
      MovesOne(rec, MarkOp(rec.runId, Running), k);
    }
  }

  /** The events a chain may hold: nothing that starts the run again, and with the local
      policy only if `local` says so. */
  predicate Permits(e: ChainEvent, r: string, local: bool) {
    ConcernsOthers(e, r) && (e.Resume? && !local ==> !LocalOnly(e.inp.cfg))
  }

  predicate PermitsAll(es: seq<ChainEvent>, r: string, local: bool) {
    forall i | 0 <= i < |es| :: Permits(es[i], r, local)
  }

  lemma ResumeStepStaysDoomed(s: Ledger, r: string, k: nat, local: bool, inp: RunInput)
    requires Refines(s) && r in s.index && Doomed(s.index[r], k, local) && (local || !LocalOnly(inp.cfg))
    ensures var t := Run(s, EventsOf(s, r, Resume(inp)));
            r in t.index && Doomed(t.index[r], k, local)
  {
    ResumeStaysDoomed(s.index[r], k, local, inp);
    CallsOnRecord(s, r, ResumeRun(s.index[r], inp).ops);
  }

  lemma StepStaysDoomed(s: Ledger, r: string, k: nat, local: bool, e: ChainEvent)
    requires Refines(s) && r in s.index && Doomed(s.index[r], k, local) && Permits(e, r, local)
    ensures var t := Run(s, EventsOf(s, r, e));
            r in t.index && Doomed(t.index[r], k, local)
  {
    if e.Resume? {
      ResumeStepStaysDoomed(s, r, k, local, e.inp);
    } else {
      OtherEventsKeepRecord(s, r, e);
      SameRecordSameIndex(s.index[r], Run(s, EventsOf(s, r, e)).index[r], k);
    }
  }

  lemma {:induction false} DoomedForever(s: Ledger, r: string, k: nat, local: bool, es: seq<ChainEvent>)
    requires Refines(s) && r in s.index && Doomed(s.index[r], k, local) && PermitsAll(es, r, local)
    ensures var t := Run(s, Chain(s, r, es));
            r in t.index && Doomed(t.index[r], k, local)
    decreases |es|
  {
    if es != [] {
      var first := EventsOf(s, r, es[0]);
      StepStaysDoomed(s, r, k, local, es[0]);
      ReplayRefinesLive(s, first);
      DoomedForever(Run(s, first), r, k, local, es[1..]);
      RunConcat(s, first, Chain(Run(s, first), r, es[1..]));
    }
  }

  /** Without the local policy, a run whose next phase is ci when a process ends is
      lost: every later chain leaves it there, and it never completes. */
  lemma StuckAtCi(s: Ledger, r: string, es: seq<ChainEvent>)
    requires Refines(s) && r in s.index && Sound(s.index[r], CI) && PermitsAll(es, r, false)
    ensures var t := Run(s, Chain(s, r, es));
            r in t.index && ResumeIndex(t.index[r]) == Some(CI) && t.index[r].state != Complete
  {
    DoomedForever(s, r, CI, false, es);
    AtIndexResumes(Run(s, Chain(s, r, es)).index[r], CI);
  }

  /** Dying between the last phase record and the completion mark is never repaired:
      no chain marks the run complete. */
  lemma UnmarkedNeverCompletes(s: Ledger, r: string, es: seq<ChainEvent>)
    requires Refines(s) && r in s.index && AtIndex(s.index[r], PHASES) && s.index[r].state != Complete
    requires PermitsAll(es, r, true)
    ensures var t := Run(s, Chain(s, r, es));
            r in t.index && t.index[r].state != Complete && ResumeIndex(t.index[r]) == Some(PHASES)
  {
    DoomedForever(s, r, PHASES, true, es);
    AtIndexResumes(Run(s, Chain(s, r, es)).index[r], PHASES);
  }

  /** A resume of such a run reports completion all the same, exactly if it gets into
      its empty loop; and it never marks the run. */
  lemma UnmarkedResumeClaimsCompletion(rec: RunRecord, inp: RunInput)
    requires AtIndex(rec, PHASES) && rec.state != Complete
    ensures ResumeRun(rec, inp).terminal == RunCompleted <==> Resumable(rec) && inp.entry == EntersLoop
    ensures MarkOp(rec.runId, Complete) !in ResumeRun(rec, inp).ops
  {
    AtIndexResumes(rec, PHASES);
  }

  // ---- Runs that can complete -----------------------------------------------

  const ALL_WELL := Returns(HandlerInput(false, Ok, map[], map[], Some(0), (None, "", ""), true, ""), false, GoesOn)

  const GOOD_WORLD: World := _ => ALL_WELL

  /** A context from which phase `i` can succeed. */
  predicate Ready(cfg: Config, i: nat, ctx: RunContext) {
    Restrained(ctx, i) && (LocalOnly(cfg) || i != CI || ctx.deliveryHeadSha.Some?)
  }

  predicate GoodIteration(cfg: Config, r: string, i: nat, step: Iteration) {
    && step.stop.None? && Ready(cfg, i + 1, step.ctx)
    && (i + 1 == PHASES ==> |step.ops| == 2 && step.ops[1] == MarkOp(r, Complete))
  }

  /** Every phase that can succeed does. */
  ghost predicate GoodWorld(cfg: Config, r: string, world: World) {
    forall i: nat, ctx | i < PHASES && Ready(cfg, i, ctx) ::
      GoodIteration(cfg, r, i, Iterate(cfg, r, PHASE_SEQUENCE[i], ctx, world(PHASE_SEQUENCE[i])))
  }

  lemma AllWellGoesOn(cfg: Config, r: string, i: nat, ctx: RunContext)
    requires i < PHASES && Ready(cfg, i, ctx)
    ensures GoodIteration(cfg, r, i, Iterate(cfg, r, PHASE_SEQUENCE[i], ctx, ALL_WELL))
  {
    var (outcome, next) := RecordedOutcome(cfg, PHASE_SEQUENCE[i], ctx, ALL_WELL);
    assert Succeeded(outcome) && Ready(cfg, i + 1, next);
  }

  lemma AllWellIsGood(cfg: Config, r: string)
    ensures GoodWorld(cfg, r, GOOD_WORLD)
  {
    forall i: nat, ctx | i < PHASES && Ready(cfg, i, ctx)
      ensures GoodIteration(cfg, r, i, Iterate(cfg, r, PHASE_SEQUENCE[i], ctx, GOOD_WORLD(PHASE_SEQUENCE[i])))
    {
      AllWellGoesOn(cfg, r, i, ctx);
    }
  }

  ghost predicate EndsComplete(report: Report, r: string) {
    && report.terminal == RunCompleted
    && report.ops != [] && report.ops[|report.ops| - 1] == MarkOp(r, Complete)
  }

  lemma EndsLater(ops: seq<Op>, rest: Report, r: string)
    requires EndsComplete(rest, r)
    ensures EndsComplete(Report(ops + rest.ops, rest.terminal), r)
  {
  }

  /** In a good world the loop runs to its end and marks completion last. */
  lemma {:induction false} LoopCanComplete(cfg: Config, r: string, i: nat, ctx: RunContext, world: World)
    requires i < PHASES && Ready(cfg, i, ctx) && GoodWorld(cfg, r, world)
    ensures EndsComplete(PhaseLoop(cfg, r, i, ctx, world), r)
    decreases PHASES - i
  {
    var step := LoopUnfolds(cfg, r, i, ctx, world);
    var rest := PhaseLoop(cfg, r, i + 1, step.ctx, world);
    if i + 1 < PHASES {
      LoopCanComplete(cfg, r, i + 1, step.ctx, world);
      EndsLater(step.ops, rest, r);
    } else {
      assert rest == Report([], RunCompleted);
    }
  }

  function AllWell(cfg: Config): RunInput {
    RunInput(cfg, EntersLoop, GOOD_WORLD)
  }

  lemma OpenResumeCompletes(rec: RunRecord, k: nat, cfg: Config)
    requires Sound(rec, k) && Open(rec, k, LocalOnly(cfg))
    ensures var ops := ResumeRun(rec, AllWell(cfg)).ops;
            ops != [] && ops[|ops| - 1] == MarkOp(rec.runId, Complete)
  {
    AtIndexResumes(rec, k);
    ResumeShape(rec, AllWell(cfg));
    AllWellIsGood(cfg, rec.runId);
    LoopCanComplete(cfg, rec.runId, k, ResumeContext(cfg, rec), GOOD_WORLD);
  }

  lemma OpenResumeEndsComplete(rec: RunRecord, k: nat, cfg: Config)
    requires Sound(rec, k) && Open(rec, k, LocalOnly(cfg)) && rec.runId != "" && rec.repository != ""
    ensures var ops := ResumeRun(rec, AllWell(cfg)).ops;
            AllPlain(ops, rec.runId) && RecordRun(rec, ops).state == Complete
  {
    OpenResumeCompletes(rec, k, cfg);
    var j := ResumeProgress(rec, k, AllWell(cfg));
    LastCallDecidesState(rec, ResumeRun(rec, AllWell(cfg)).ops);
  }

  /** One resume under a given policy can mark the run complete if and only if the run is
      open: it can be resumed, a phase is left, and it is not ci under the remote policy. */
  lemma ResumeCanCompleteIff(rec: RunRecord, k: nat, local: bool)
    requires Sound(rec, k) && rec.runId != "" && rec.repository != ""
    ensures (exists inp: RunInput :: LocalOnly(inp.cfg) == local && MarkOp(rec.runId, Complete) in ResumeRun(rec, inp).ops)
            <==> Open(rec, k, local)
  {
    if Open(rec, k, local) {
      var cfg: Config := RawConfig(1, if local then "local" else "");
      OpenResumeCompletes(rec, k, cfg);
      assert LocalOnly(AllWell(cfg).cfg) == local;
    } else {
      forall inp: RunInput | LocalOnly(inp.cfg) == local
        ensures MarkOp(rec.runId, Complete) !in ResumeRun(rec, inp).ops
      {
        ClosedResumeDoesNotMark(rec, k, inp);
      }
    }
  }

  lemma ClosedResumeDoesNotMark(rec: RunRecord, k: nat, inp: RunInput)
    requires Sound(rec, k) && rec.runId != "" && rec.repository != "" && !Open(rec, k, LocalOnly(inp.cfg))
    ensures MarkOp(rec.runId, Complete) !in ResumeRun(rec, inp).ops
  {
    if rec.state != Complete {
      ResumeStaysPut(rec, k, LocalOnly(inp.cfg), inp);
      if k == PHASES {
        UnmarkedResumeClaimsCompletion(rec, inp);
      }
    }
  }

  ghost predicate Completes(s: Ledger, r: string, es: seq<ChainEvent>) {
    var t := Run(s, Chain(s, r, es));
    r in t.index && t.index[r].state == Complete
  }

  /** Some chain completes a run if and only if the run is complete or open.  With
      `local` false all processes of the chain follow the remote policy. */
  lemma ChainCanCompleteIff(s: Ledger, r: string, k: nat, local: bool)
    requires Refines(s) && r in s.index && Sound(s.index[r], k)
    ensures (exists es :: PermitsAll(es, r, local) && Completes(s, r, es))
            <==> s.index[r].state == Complete || Open(s.index[r], k, local)
  {
    var rec := s.index[r];
    if rec.state == Complete {
      assert Chain(s, r, []) == [] && Completes(s, r, []) && PermitsAll([], r, local);
    } else if Open(rec, k, local) {
      OpenChainCompletes(s, r, k, local);
    } else {
      forall es | PermitsAll(es, r, local) ensures !Completes(s, r, es) {
        DoomedForever(s, r, k, local, es);
      }
    }
  }

  lemma ChainOfOne(s: Ledger, r: string, e: ChainEvent)
    ensures Chain(s, r, [e]) == EventsOf(s, r, e)
  {
    var first := EventsOf(s, r, e);
    assert [e][1..] == [] && Chain(s, r, [e]) == first + Chain(Run(s, first), r, []) == first + [];
  }

  lemma OpenChainCompletes(s: Ledger, r: string, k: nat, local: bool)
    requires Refines(s) && r in s.index && Sound(s.index[r], k) && Open(s.index[r], k, local)
    ensures exists es :: PermitsAll(es, r, local) && Completes(s, r, es)
  {
    var rec := s.index[r];
    var cfg: Config := RawConfig(1, if local then "local" else "");
    var es := [Resume(AllWell(cfg))];
    OpenResumeEndsComplete(rec, k, cfg);
    CallsOnRecord(s, r, ResumeRun(rec, AllWell(cfg)).ops);
    ChainOfOne(s, r, es[0]);
    assert PermitsAll(es, r, local) && Completes(s, r, es);
  }

  // ---- Both draft_pr and ci in one process ----------------------------------

  /** The ledgers a chain goes through, from `s` on. */
  ghost predicate Trail(s: Ledger, r: string, es: seq<ChainEvent>, states: seq<Ledger>) {
    && |states| == |es| + 1 && states[0] == s
    && forall i | 0 <= i < |es| :: states[i + 1] == Run(states[i], EventsOf(states[i], r, es[i]))
  }

  lemma {:induction false} ChainTrail(s: Ledger, r: string, es: seq<ChainEvent>) returns (states: seq<Ledger>)
    ensures Trail(s, r, es, states) && states[|es|] == Run(s, Chain(s, r, es))
    decreases |es|
  {
    states := [s];
    if es != [] {
      var first := EventsOf(s, r, es[0]);
      var rest := ChainTrail(Run(s, first), r, es[1..]);
      states := states + rest;
      RunConcat(s, first, Chain(Run(s, first), r, es[1..]));
      TrailGrows(s, r, es, rest);
    }
  }

  lemma {:induction false} TrailGrows(s: Ledger, r: string, es: seq<ChainEvent>, rest: seq<Ledger>)
    requires es != [] && Trail(Run(s, EventsOf(s, r, es[0])), r, es[1..], rest)
    ensures Trail(s, r, es, [s] + rest)
  {
    var states := [s] + rest;
    forall i | 0 <= i < |es| ensures states[i + 1] == Run(states[i], EventsOf(states[i], r, es[i])) {
      if i > 0 {
        assert states[i] == rest[i - 1] && states[i + 1] == rest[i - 1 + 1] && es[i] == es[1..][i - 1];
      }
    }
  }

  lemma StepSound(s: Ledger, r: string, k: nat, e: ChainEvent) returns (j: nat)
    requires Refines(s) && r in s.index && Sound(s.index[r], k) && ConcernsOthers(e, r)
    ensures var t := Run(s, EventsOf(s, r, e));
            r in t.index && Sound(t.index[r], j) && k <= j && (j > k ==> e.Resume?)
  {
    j := k;
    if e.Resume? {
      j := ResumeProgress(s.index[r], k, e.inp);
      CallsOnRecord(s, r, ResumeRun(s.index[r], e.inp).ops);
    } else {
      OtherEventsKeepRecord(s, r, e);
      SameRecordSameIndex(s.index[r], Run(s, EventsOf(s, r, e)).index[r], k);
    }
  }

  lemma TrailStaysSound(s: Ledger, r: string, es: seq<ChainEvent>, states: seq<Ledger>, n: nat, i: nat) returns (j: nat)
    requires Trail(s, r, es, states) && n < |es| && PermitsAll(es, r, false)
    requires Refines(states[n]) && r in states[n].index && Sound(states[n].index[r], i)
    ensures Refines(states[n + 1]) && r in states[n + 1].index && Sound(states[n + 1].index[r], j)
  {
    j := StepSound(states[n], r, i, es[n]);
    ReplayRefinesLive(states[n], EventsOf(states[n], r, es[n]));
  }

  lemma {:induction false} SoundAfter(s: Ledger, r: string, k: nat, es: seq<ChainEvent>, states: seq<Ledger>, n: nat)
    returns (j: nat)
    requires Refines(s) && r in s.index && Sound(s.index[r], k) && PermitsAll(es, r, false)
    requires Trail(s, r, es, states) && n <= |es|
    ensures Refines(states[n]) && r in states[n].index && Sound(states[n].index[r], j)
  {
    j := k;
    if n > 0 {
      var i := SoundAfter(s, r, k, es, states, n - 1);
      j := TrailStaysSound(s, r, es, states, n - 1, i);
    }
  }

  /** Event `e` takes the run from draft_pr or before it past ci. */
  ghost predicate Crosses(s: Ledger, r: string, e: ChainEvent) {
    var t := Run(s, EventsOf(s, r, e));
    && e.Resume? && r in s.index && r in t.index
    && (exists i: nat :: i <= DRAFT_PR && Sound(s.index[r], i))
    && (exists j: nat :: j > CI && Sound(t.index[r], j))
  }

  lemma OneIndex(rec: RunRecord, i: nat, j: nat)
    requires Sound(rec, i) && Sound(rec, j)
    ensures i == j
  {
    AtIndexResumes(rec, i);
    AtIndexResumes(rec, j);
  }

  /** One event that leaves a run past ci found it there, or crosses. */
  lemma PastCiOrCrosses(s: Ledger, r: string, i: nat, e: ChainEvent, t: Ledger, j: nat)
    requires Refines(s) && r in s.index && Sound(s.index[r], i) && Permits(e, r, false)
    requires t == Run(s, EventsOf(s, r, e)) && r in t.index && Sound(t.index[r], j) && j > CI
    ensures i > CI || Crosses(s, r, e)
  {
    var next := StepSound(s, r, i, e);
    OneIndex(t.index[r], next, j);
    if i == CI {
      StepStaysDoomed(s, r, CI, false, e);
      OneIndex(t.index[r], CI, j);
    }
  }

  lemma {:induction false} SomeEventCrosses(
    s: Ledger, r: string, k: nat, es: seq<ChainEvent>, states: seq<Ledger>, m: nat, last: nat) returns (n: nat)
    requires Refines(s) && r in s.index && Sound(s.index[r], k) && k <= DRAFT_PR && PermitsAll(es, r, false)
    requires Trail(s, r, es, states) && m <= |es|
    requires r in states[m].index && Sound(states[m].index[r], last) && last > CI
    ensures n < m && Crosses(states[n], r, es[n])
  {
    if m == 0 {
      OneIndex(s.index[r], k, last);
      assert false;
    }
    n := m - 1;
    assert states[n + 1] == Run(states[n], EventsOf(states[n], r, es[n]));
    var i := SoundAfter(s, r, k, es, states, n);
    PastCiOrCrosses(states[n], r, i, es[n], states[m], last);
    if i > CI {
      n := SomeEventCrosses(s, r, k, es, states, n, i);
    }
  }

  /** Under the remote policy a run completes only if one process of the chain takes it
      through both draft_pr and ci. */
  lemma OneProcessDoesBoth(s: Ledger, r: string, k: nat, es: seq<ChainEvent>) returns (states: seq<Ledger>, n: nat)
    requires Refines(s) && r in s.index && Sound(s.index[r], k) && k <= DRAFT_PR
    requires PermitsAll(es, r, false) && Completes(s, r, es)
    ensures Trail(s, r, es, states) && n < |es| && Crosses(states[n], r, es[n])
  {
    states := ChainTrail(s, r, es);
    var last := SoundAfter(s, r, k, es, states, |es|);
    n := SomeEventCrosses(s, r, k, es, states, |es|, last);
  }
}
