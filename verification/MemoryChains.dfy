/** Resumes over the in-memory ledger, which drops the cursor when a start replaces a
    record: what they lose, and when they are exact all the same. */
module MemoryChains {
  import opened Records
  import opened Orchestration
  import opened ResumeChains
  import opened Completion
  import opened MemoryLedger

  // ---- One record -----------------------------------------------------------

  /** A failed attempt without a checkpoint: its legacy phase names the failed phase. */
  predicate Forgetful(rec: RunRecord) {
    rec.cursor.Some? && rec.cursor.value.lastCompletedPhase.None?
  }

  /** A start that replaces a record keeps its place, unless the record is a failed
      attempt without a checkpoint: then the failed phase counts as done. */
  lemma DroppedCursorResumesRightIff(rec: RunRecord, k: nat, op: Op)
    requires AtIndex(rec, k) && op.Start?
    ensures var after, j := MemoryLedger.StartRecord(Some(rec), op), if Forgetful(rec) then k + 1 else k;
            AtIndex(after, j) && ResumeIndex(after) == Some(j)
  {
    AtIndexResumes(MemoryLedger.StartRecord(Some(rec), op), if Forgetful(rec) then k + 1 else k);
  }

  function MemoryRecordStep(rec: RunRecord, op: Op): RunRecord
    requires !op.Attribute?
  {
    if op.Start? then MemoryLedger.StartRecord(Some(rec), op) else Transition(rec, op.state, op.change, op.ctx)
  }

  function MemoryRecordRun(rec: RunRecord, ops: seq<Op>): RunRecord
    requires AllPlain(ops, rec.runId)
    decreases |ops|
  {
    if ops == [] then rec else MemoryRecordRun(MemoryRecordStep(rec, ops[0]), ops[1..])
  }

  predicate NoStart(ops: seq<Op>) {
    forall i | 0 <= i < |ops| :: !ops[i].Start?
  }

  /** Only a start is different in memory. */
  lemma {:induction false} SameWithoutStart(rec: RunRecord, ops: seq<Op>)
    requires AllPlain(ops, rec.runId) && NoStart(ops)
    ensures MemoryRecordRun(rec, ops) == RecordRun(rec, ops)
    decreases |ops|
  {
    if ops != [] {
      SameWithoutStart(RecordStep(rec, ops[0]), ops[1..]);
    }
  }

  lemma {:induction false} LoopHasNoStart(cfg: Config, r: string, i: nat, ctx: RunContext, world: World)
    requires i <= PHASES
    ensures NoStart(PhaseLoop(cfg, r, i, ctx, world).ops)
    decreases PHASES - i
  {
    if i < PHASES {
      var step := LoopUnfolds(cfg, r, i, ctx, world);
      if step.stop.None? {
        LoopHasNoStart(cfg, r, i + 1, step.ctx, world);
      }
    }
  }

  /** Recording a phase overwrites the legacy phase, so it does not matter before. */
  lemma PhaseIsOverwritten(rec: RunRecord, phase: Option<Label>, ops: seq<Op>)
    requires AllPlain(ops, rec.runId) && ops != [] && ops[0].Update? && ops[0].change.Some?
    ensures RecordRun(rec.(phase := phase), ops) == RecordRun(rec, ops)
  {
    assert RecordStep(rec.(phase := phase), ops[0]) == RecordStep(rec, ops[0]);
  }

  // ---- One resume -----------------------------------------------------------

  /** The start replaces a failed attempt without a checkpoint, and the process records
      nothing after it: it stops before its loop, or in its first phase. */
  predicate Loses(rec: RunRecord, inp: RunInput) {
    && Begins(rec, inp) && Forgetful(rec)
    && (inp.entry == StopsAfterStart ||
        (ResumeIndex(rec).value < PHASES && !inp.world(PHASE_SEQUENCE[ResumeIndex(rec).value]).Returns?))
  }

  /** The record when the loop begins. */
  function Begun(rec: RunRecord): RunRecord {
    MemoryLedger.StartRecord(Some(Transition(rec, Running, None, None)), BeginOp(rec))
  }

  lemma BegunRecord(rec: RunRecord, ops: seq<Op>)
    requires rec.runId != "" && rec.repository != "" && AllPlain(ops, rec.runId)
    ensures var all := [MarkOp(rec.runId, Running), BeginOp(rec)] + ops;
            AllPlain(all, rec.runId) && MemoryRecordRun(rec, all) == MemoryRecordRun(Begun(rec), ops)
  {
    var mark, begin := MarkOp(rec.runId, Running), BeginOp(rec);
    var all := [mark, begin] + ops;
    assert all[1..] == [begin] + ops && all[1..][1..] == ops;
    assert MemoryRecordRun(rec, all) == MemoryRecordRun(MemoryRecordStep(rec, mark), all[1..]);
  }

  /** A place in the sequence, whatever came before it. */
  ghost predicate Stands(rec: RunRecord, r: string, k: nat) {
    rec.runId == r != "" && rec.repository != "" && Sound(rec, k)
  }

  /** The loop of a resume whose place was kept. */
  lemma LoopOnKept(rec: RunRecord, k: nat, inp: RunInput) returns (j: nat)
    requires Stands(rec, rec.runId, k) && Begins(rec, inp) && !Forgetful(rec)
    ensures Moves(Begun(rec), LoopOf(rec, inp).ops, k, j)
  {
    AtIndexResumes(rec, k);
    DroppedCursorResumesRightIff(Transition(rec, Running, None, None), k, BeginOp(rec));
    j := LoopProgress(inp.cfg, Begun(rec), k, ResumeContext(inp.cfg, rec), inp.world);
  }

  /** The loop of a resume whose place was not kept, but which records its first phase:
      the record is then as if the place had been kept. */
  lemma LoopOnForgotten(rec: RunRecord, k: nat, inp: RunInput) returns (j: nat)
    requires Stands(rec, rec.runId, k) && Begins(rec, inp) && Forgetful(rec)
    requires inp.entry == EntersLoop && !Loses(rec, inp)
    ensures Moves(Begun(rec), LoopOf(rec, inp).ops, k, j)
  {
    AtIndexResumes(rec, k);
    var ctx := ResumeContext(inp.cfg, rec);
    var kept := Begun(rec).(phase := Checkpoint(k));
    j := LoopProgress(inp.cfg, kept, k, ctx, inp.world);
    var step := LoopUnfolds(inp.cfg, rec.runId, k, ctx, inp.world);
    PhaseIsOverwritten(Begun(rec), Checkpoint(k), LoopOf(rec, inp).ops);
  }

  /** The loop of a resume that loses its phase: the process records none. */
  lemma LoopOnLost(rec: RunRecord, k: nat, inp: RunInput)
    requires Stands(rec, rec.runId, k) && Loses(rec, inp) && inp.entry == EntersLoop
    ensures var ops := LoopOf(rec, inp).ops;
            ops in {[], [MarkOp(rec.runId, RunState.Failed)]} && Moves(Begun(rec), ops, k + 1, k + 1)
  {
    AtIndexResumes(rec, k);
    DroppedCursorResumesRightIff(Transition(rec, Running, None, None), k, BeginOp(rec));
    var step := LoopUnfolds(inp.cfg, rec.runId, k, ResumeContext(inp.cfg, rec), inp.world);
    MovesNot(Begun(rec), k + 1);
    MovesOne(Begun(rec), MarkOp(rec.runId, RunState.Failed), k + 1);
  }

  /** What one resume does in memory, from index `k` to index `j`: it loses phase `k` and
      records nothing, or it records exactly the successes from `k` up to `j`. */
  ghost predicate MemoryMoves(rec: RunRecord, inp: RunInput, k: nat, j: nat) {
    var ops := ResumeRun(rec, inp).ops;
    && AllPlain(ops, rec.runId) && k <= j <= PHASES
    && Stands(MemoryRecordRun(rec, ops), rec.runId, j)
    && (if Loses(rec, inp) then j == k + 1 && Successes(ops, rec.runId) == []
        else Successes(ops, rec.runId) == PHASE_SEQUENCE[k..j])
    && (MarkOp(rec.runId, Complete) in ops ==> j == PHASES)
  }

  lemma {:induction false} SameRepository(rec: RunRecord, ops: seq<Op>)
    requires AllPlain(ops, rec.runId)
    requires forall i | 0 <= i < |ops| && ops[i].Start? :: ops[i].repository == rec.repository
    ensures RecordRun(rec, ops).repository == rec.repository
    decreases |ops|
  {
    if ops != [] {
      SameRepository(RecordStep(rec, ops[0]), ops[1..]);
    }
  }

  /** From the loop's calls to those of the whole resume. */
  lemma AfterBegin(rec: RunRecord, inp: RunInput, ops: seq<Op>, i: nat, j: nat)
    requires rec.runId != "" && rec.repository != ""
    requires ResumeRun(rec, inp).ops == [MarkOp(rec.runId, Running), BeginOp(rec)] + ops
    requires Moves(Begun(rec), ops, i, j) && NoStart(ops)
    ensures var all := ResumeRun(rec, inp).ops;
            && AllPlain(all, rec.runId) && Stands(MemoryRecordRun(rec, all), rec.runId, j)
            && Successes(all, rec.runId) == PHASE_SEQUENCE[i..j]
            && (MarkOp(rec.runId, Complete) in all ==> j == PHASES)
  {
    var pre := [MarkOp(rec.runId, Running), BeginOp(rec)];
    BegunRecord(rec, ops);
    SameWithoutStart(Begun(rec), ops);
    SameRepository(Begun(rec), ops);
    NoSuccesses(pre, rec.runId);
    SuccessesConcat(pre, ops, rec.runId);
    assert MarkOp(rec.runId, Complete) !in pre;
  }

  lemma NothingBegun(rec: RunRecord, k: nat, inp: RunInput)
    requires Stands(rec, rec.runId, k) && !Begins(rec, inp)
    ensures MemoryMoves(rec, inp, k, k)
  {
    var ops := ResumeRun(rec, inp).ops;
    ResumeShape(rec, inp);
    MovesNot(rec, k);
    MovesOne(rec, MarkOp(rec.runId, Running), k);
    SameWithoutStart(rec, ops);
    SameRepository(rec, ops);
  }

  lemma ResumeMoves(rec: RunRecord, k: nat, inp: RunInput) returns (j: nat)
    requires Stands(rec, rec.runId, k)
    ensures MemoryMoves(rec, inp, k, j)
  {
    j := k;
    if !Begins(rec, inp) {
      NothingBegun(rec, k, inp);
      return;
    }
    ResumeShape(rec, inp);
    AtIndexResumes(rec, k);
    DroppedCursorResumesRightIff(Transition(rec, Running, None, None), k, BeginOp(rec));
    var ops := if inp.entry == EntersLoop then LoopOf(rec, inp).ops else [];
    var i := if Loses(rec, inp) then k + 1 else k;
    LoopHasNoStart(inp.cfg, rec.runId, k, ResumeContext(inp.cfg, rec), inp.world);
    if inp.entry != EntersLoop {
      MovesNot(Begun(rec), i);
      j := i;
    } else if Loses(rec, inp) {
      LoopOnLost(rec, k, inp);
      j := i;
    } else if Forgetful(rec) {
      j := LoopOnForgotten(rec, k, inp);
    } else {
      j := LoopOnKept(rec, k, inp);
    }
    AfterBegin(rec, inp, ops, i, j);
  }

  /** In memory, the resume after a resume begins right after the recorded successes if
      and only if that resume loses nothing.  If it does, a failed phase is passed over. */
  lemma NextResumeIsRightIff(rec: RunRecord, k: nat, inp: RunInput)
    requires Stands(rec, rec.runId, k)
    ensures AllPlain(ResumeRun(rec, inp).ops, rec.runId)
    ensures var ops := ResumeRun(rec, inp).ops;
            var next := k + |Successes(ops, rec.runId)|;
            ResumeIndex(MemoryRecordRun(rec, ops)) == Some(if Loses(rec, inp) then next + 1 else next)
  {
    var j := ResumeMoves(rec, k, inp);
    IndexOfMoves(rec, k, inp, j);
  }

  lemma IndexOfMoves(rec: RunRecord, k: nat, inp: RunInput, j: nat)
    requires MemoryMoves(rec, inp, k, j)
    ensures var ops := ResumeRun(rec, inp).ops;
            && ResumeIndex(MemoryRecordRun(rec, ops)) == Some(j)
            && |Successes(ops, rec.runId)| == if Loses(rec, inp) then 0 else j - k
    ensures Loses(rec, inp) ==> j == k + 1
  {
    AtIndexResumes(MemoryRecordRun(rec, ResumeRun(rec, inp).ops), j);
    assert |PHASE_SEQUENCE[k..j]| == j - k;
  }

  /** The loop of this resume records a failed attempt of phase `k`, and stops. */
  predicate FailsAt(rec: RunRecord, k: nat, inp: RunInput)
    requires k < PHASES
  {
    var e := inp.world(PHASE_SEQUENCE[k]);
    inp.entry == EntersLoop && e.Returns? &&
    !Succeeded(RecordedOutcome(inp.cfg, PHASE_SEQUENCE[k], ResumeContext(inp.cfg, rec), e).0)
  }

  /** The record of a failed attempt, and the state it is left in. */
  ghost predicate Attempted(rec: RunRecord, ops: seq<Op>, after: RunRecord) {
    && AllPlain(ops, rec.runId) && NoStart(ops) && NoneSucceeds(ops, rec.runId)
    && after == RecordRun(rec, ops) && after.runId == rec.runId && after.repository == rec.repository
    && after.state != Complete && after.state != Cancelled && after.featureDescription == rec.featureDescription
    && after.cursor.Some?
    && after.cursor.value.lastCompletedPhase ==
       (if rec.cursor.Some? then rec.cursor.value.lastCompletedPhase else None)
  }

  lemma FailedAttempt(rec: RunRecord, phase: PhaseName, outcome: PhaseOutcome, ctx: RunContext, mark: Option<RunState>)
    requires rec.runId != "" && !Succeeded(outcome) && rec.state == Running
    requires mark.Some? ==> mark.value != Complete && mark.value != Cancelled
    ensures var ops := RecordAndMark(rec.runId, phase, outcome, ctx, mark);
            AllPlain(ops, rec.runId) && Attempted(rec, ops, RecordRun(rec, ops))
  {
    var ops := RecordAndMark(rec.runId, phase, outcome, ctx, mark);
    var one := RecordStep(rec, ops[0]);
    if mark.Some? {
      assert ops[1..] == [ops[1]] && ops[1..][1..] == [];
      assert RecordRun(rec, ops) == RecordRun(one, [ops[1]]) == RecordStep(one, ops[1]);
    } else {
      assert ops[1..] == [] && RecordRun(rec, ops) == one;
    }
  }

  lemma FailingLoop(rec: RunRecord, k: nat, inp: RunInput, begun: RunRecord)
    requires Stands(rec, rec.runId, k) && Begins(rec, inp) && k < PHASES && FailsAt(rec, k, inp)
    requires begun.runId == rec.runId && begun.state == Running
    ensures var ops := LoopOf(rec, inp).ops;
            AllPlain(ops, rec.runId) && Attempted(begun, ops, RecordRun(begun, ops))
  {
    AtIndexResumes(rec, k);
    var ctx, e := ResumeContext(inp.cfg, rec), inp.world(PHASE_SEQUENCE[k]);
    var step := LoopUnfolds(inp.cfg, rec.runId, k, ctx, inp.world);
    var (outcome, next) := RecordedOutcome(inp.cfg, PHASE_SEQUENCE[k], ctx, e);
    FailedAttempt(begun, PHASE_SEQUENCE[k], outcome, next, Verdict(PHASE_SEQUENCE[k], outcome, e.after).0);
  }

  /** After a resume that fails at phase `k`, either ledger still stands at `k`, but in
      memory the attempt has no checkpoint. */
  lemma FailingResume(rec: RunRecord, k: nat, inp: RunInput)
    requires Stands(rec, rec.runId, k) && Resumable(rec) && k < PHASES && FailsAt(rec, k, inp)
    ensures var ops := ResumeRun(rec, inp).ops;
            && AllPlain(ops, rec.runId) && Successes(ops, rec.runId) == []
            && Stands(MemoryRecordRun(rec, ops), rec.runId, k) && Stands(RecordRun(rec, ops), rec.runId, k)
            && Resumable(MemoryRecordRun(rec, ops)) && Forgetful(MemoryRecordRun(rec, ops))
  {
    AtIndexResumes(rec, k);
    ResumeShape(rec, inp);
    var all, ops, pre := ResumeRun(rec, inp).ops, LoopOf(rec, inp).ops, [MarkOp(rec.runId, Running), BeginOp(rec)];
    FailingLoop(rec, k, inp, Begun(rec));
    BegunRecord(rec, ops);
    SameWithoutStart(Begun(rec), ops);
    NoSuccesses(pre, rec.runId);
    NoSuccesses(ops, rec.runId);
    SuccessesConcat(pre, ops, rec.runId);
    DurableStays(rec, k, inp);
    MemoryStays(rec, k, inp);
  }

  /** A resume that records no success leaves the durable record where it stands. */
  lemma DurableStays(rec: RunRecord, k: nat, inp: RunInput)
    requires Stands(rec, rec.runId, k) && Successes(ResumeRun(rec, inp).ops, rec.runId) == []
    ensures AllPlain(ResumeRun(rec, inp).ops, rec.runId)
    ensures Stands(RecordRun(rec, ResumeRun(rec, inp).ops), rec.runId, k)
    ensures ResumeIndex(RecordRun(rec, ResumeRun(rec, inp).ops)) == Some(k)
  {
    var ops := ResumeRun(rec, inp).ops;
    var j := ResumeProgress(rec, k, inp);
    assert |PHASE_SEQUENCE[k..j]| == j - k;
    AtIndexResumes(rec, k);
    ResumeShape(rec, inp);
    LoopHasNoStart(inp.cfg, rec.runId, k, ResumeContext(inp.cfg, rec), inp.world);
    SameRepository(rec, ops);
    AtIndexResumes(RecordRun(rec, ops), k);
  }

  lemma MemoryStays(rec: RunRecord, k: nat, inp: RunInput)
    requires Stands(rec, rec.runId, k) && Successes(ResumeRun(rec, inp).ops, rec.runId) == [] && !Loses(rec, inp)
    ensures AllPlain(ResumeRun(rec, inp).ops, rec.runId)
    ensures Stands(MemoryRecordRun(rec, ResumeRun(rec, inp).ops), rec.runId, k)
  {
    var j := ResumeMoves(rec, k, inp);
    IndexOfMoves(rec, k, inp, j);
  }

  lemma StoppedResume(rec: RunRecord, inp: RunInput)
    requires inp.entry == StopsAfterStart
    ensures Successes(ResumeRun(rec, inp).ops, rec.runId) == []
  {
    NoSuccesses(ResumeRun(rec, inp).ops, rec.runId);
  }

  /** At every phase: a resume that fails there, and one that stops after its start record,
      make the resume after them skip the failed phase.  On the durable ledger the phase is
      tried again. */
  lemma FailedPhaseIsSkipped(rec: RunRecord, k: nat, fails: RunInput, stops: RunInput)
    requires Stands(rec, rec.runId, k) && Resumable(rec) && k < PHASES && FailsAt(rec, k, fails)
    requires stops.entry == StopsAfterStart
    ensures var first := ResumeRun(rec, fails).ops;
            && AllPlain(first, rec.runId) && Successes(first, rec.runId) == []
            && var memory, durable := MemoryRecordRun(rec, first), RecordRun(rec, first);
               && memory.runId == durable.runId == rec.runId
               && var second, retry := ResumeRun(memory, stops).ops, ResumeRun(durable, stops).ops;
                  && AllPlain(second, rec.runId) && Successes(second, rec.runId) == []
                  && AllPlain(retry, rec.runId) && Successes(retry, rec.runId) == []
                  && ResumeIndex(MemoryRecordRun(memory, second)) == Some(k + 1)
                  && ResumeIndex(RecordRun(durable, retry)) == Some(k)
  {
    FailingResume(rec, k, fails);
    var first := ResumeRun(rec, fails).ops;
    var memory, durable := MemoryRecordRun(rec, first), RecordRun(rec, first);
    AtIndexResumes(memory, k);
    StoppedResume(memory, stops);
    StoppedResume(durable, stops);
    NextResumeIsRightIff(memory, k, stops);
    DurableStays(durable, k, stops);
  }

  // ---- Chains over the store ------------------------------------------------

  function DoAll(s: Store, max: nat, ops: seq<Op>): (t: Store)
    requires Valid(s, max)
    ensures Valid(t, max)
    decreases |ops|
  {
    if ops == [] then s else DoAll(Next(s, max, ops[0]), max, ops[1..])
  }

  /** Starts without an idempotency key, as a resume makes them. */
  predicate Keyless(ops: seq<Op>) {
    forall i | 0 <= i < |ops| && ops[i].Start? :: ops[i].key == ""
  }

  lemma OneOp(s: Store, max: nat, r: string, op: Op)
    requires Valid(s, max) && r in s.records && Plain(op, r) && (op.Start? ==> op.key == "")
    ensures Next(s, max, op).records == s.records[r := MemoryRecordStep(s.records[r], op)]
  {
  }

  lemma {:induction false} OpsOnRecord(s: Store, max: nat, r: string, ops: seq<Op>)
    requires Valid(s, max) && r in s.records && s.records[r].runId == r && AllPlain(ops, r) && Keyless(ops)
    ensures DoAll(s, max, ops).records == s.records[r := MemoryRecordRun(s.records[r], ops)]
    decreases |ops|
  {
    if ops != [] {
      OneOp(s, max, r, ops[0]);
      OpsOnRecord(Next(s, max, ops[0]), max, r, ops[1..]);
    }
  }

  /** A phase that a run has got past: recorded as a success, or lost. */
  datatype Passage = Recorded(phase: PhaseName) | Lost(phase: PhaseName)

  function Passing(ps: seq<PhaseName>): (passed: seq<Passage>)
    ensures |passed| == |ps| && forall i | 0 <= i < |ps| :: passed[i] == Recorded(ps[i])
  {
    seq(|ps|, i requires 0 <= i < |ps| => Recorded(ps[i]))
  }

  function PhasesOf(passed: seq<Passage>): (ps: seq<PhaseName>)
    ensures |ps| == |passed|
  {
    seq(|passed|, i requires 0 <= i < |passed| => passed[i].phase)
  }

  function RecordedIn(passed: seq<Passage>): seq<PhaseName> {
    if passed == [] then []
    else (if passed[0].Recorded? then [passed[0].phase] else []) + RecordedIn(passed[1..])
  }

  function LostIn(passed: seq<Passage>): seq<PhaseName> {
    if passed == [] then []
    else (if passed[0].Lost? then [passed[0].phase] else []) + LostIn(passed[1..])
  }

  /** A chain so far: the store, the calls made, and the phases got past. */
  datatype Journey = Journey(store: Store, history: seq<Op>, passed: seq<Passage>)

  predicate LosesAt(s: Store, r: string, e: ChainEvent) {
    e.Resume? && r in s.records && Loses(s.records[r], e.inp)
  }

  function CallsOf(s: Store, r: string, e: ChainEvent): seq<Op> {
    match e
    case Resume(inp) => if r in s.records then ResumeRun(s.records[r], inp).ops else []
    case Cancel => if r in s.records && s.records[r].state != Complete then [MarkOp(r, Cancelled)] else []
    case Elsewhere(op) => [op]
    case Restart => []
  }

  /** One event; a restart loses the whole ledger. */
  function Travel(t: Journey, max: nat, r: string, e: ChainEvent): (u: Journey)
    requires Valid(t.store, max)
    ensures Valid(u.store, max)
  {
    var ops := CallsOf(t.store, r, e);
    var passed :=
      if LosesAt(t.store, r, e) then
        var k := ResumeIndex(t.store.records[r]).value;
        if k < PHASES then [Lost(PHASE_SEQUENCE[k])] else []
      else if e.Resume? then Passing(Successes(ops, r)) else [];
    Journey(if e.Restart? then EMPTY_STORE else DoAll(t.store, max, ops), t.history + ops, t.passed + passed)
  }

  function TravelAll(t: Journey, max: nat, r: string, es: seq<ChainEvent>): Journey
    requires Valid(t.store, max)
    decreases |es|
  {
    if es == [] then t else TravelAll(Travel(t, max, r, es[0]), max, r, es[1..])
  }

  /** The resumes of a chain that lose a phase. */
  function Losses(t: Journey, max: nat, r: string, es: seq<ChainEvent>): nat
    requires Valid(t.store, max)
    decreases |es|
  {
    if es == [] then 0
    else (if LosesAt(t.store, r, es[0]) then 1 else 0) + Losses(Travel(t, max, r, es[0]), max, r, es[1..])
  }

  /** The phases got past are the first of the sequence, and the recorded ones among them
      are the recorded successes; completion was marked only when all were passed. */
  ghost predicate Tallies(passed: seq<Passage>, history: seq<Op>, r: string) {
    && |passed| <= PHASES && PhasesOf(passed) == PHASE_SEQUENCE[..|passed|]
    && RecordedIn(passed) == Successes(history, r)
    && (MarkOp(r, Complete) in history ==> |passed| == PHASES)
  }

  /** While the run is resident, it stands right after the phases it got past. */
  ghost predicate Accounted(t: Journey, max: nat, r: string) {
    && Valid(t.store, max)
    && (r in t.store.records ==> Stands(t.store.records[r], r, |t.passed|) && Tallies(t.passed, t.history, r))
  }

  lemma {:induction false} RecordedConcat(a: seq<Passage>, b: seq<Passage>)
    ensures RecordedIn(a + b) == RecordedIn(a) + RecordedIn(b)
  {
    if a == [] {
      assert a + b == b;
    } else {
      assert (a + b)[1..] == a[1..] + b;
      RecordedConcat(a[1..], b);
      var first := if a[0].Recorded? then [a[0].phase] else [];
      assert first + (RecordedIn(a[1..]) + RecordedIn(b)) == (first + RecordedIn(a[1..])) + RecordedIn(b);
    }
  }

  lemma {:induction false} LostConcat(a: seq<Passage>, b: seq<Passage>)
    ensures LostIn(a + b) == LostIn(a) + LostIn(b)
  {
    if a == [] {
      assert a + b == b;
    } else {
      assert (a + b)[1..] == a[1..] + b;
      LostConcat(a[1..], b);
      var first := if a[0].Lost? then [a[0].phase] else [];
      assert first + (LostIn(a[1..]) + LostIn(b)) == (first + LostIn(a[1..])) + LostIn(b);
    }
  }

  /** Every passage is one or the other. */
  lemma {:induction false} RecordedOrLost(passed: seq<Passage>)
    ensures |RecordedIn(passed)| + |LostIn(passed)| == |passed|
    ensures LostIn(passed) == [] ==> RecordedIn(passed) == PhasesOf(passed)
  {
    if passed != [] {
      RecordedOrLost(passed[1..]);
      assert PhasesOf(passed) == [passed[0].phase] + PhasesOf(passed[1..]);
    }
  }

  lemma {:induction false} InPassing(ps: seq<PhaseName>)
    ensures RecordedIn(Passing(ps)) == ps && LostIn(Passing(ps)) == [] && PhasesOf(Passing(ps)) == ps
  {
    if ps != [] {
      InPassing(ps[1..]);
      assert Passing(ps)[1..] == Passing(ps[1..]);
      assert ps == [ps[0]] + ps[1..];
    }
  }

  lemma InLost(p: PhaseName)
    ensures RecordedIn([Lost(p)]) == [] && LostIn([Lost(p)]) == [p] && PhasesOf([Lost(p)]) == [p]
  {
    assert [Lost(p)][1..] == [];
  }

  /** Some calls, and the phases they get a run past. */
  lemma TallyGrows(passed: seq<Passage>, history: seq<Op>, r: string, more: seq<Passage>, ops: seq<Op>, j: nat)
    requires Tallies(passed, history, r)
    requires |passed| <= j <= PHASES && PhasesOf(more) == PHASE_SEQUENCE[|passed|..j]
    requires RecordedIn(more) == Successes(ops, r) && (MarkOp(r, Complete) in ops ==> j == PHASES)
    ensures |passed + more| == j && Tallies(passed + more, history + ops, r)
  {
    RecordedConcat(passed, more);
    SuccessesConcat(history, ops, r);
    assert |PhasesOf(more)| == |more| == j - |passed|;
    PhasesConcat(passed, more);
    PrefixExtends(|passed|, j);
  }

  lemma PhasesConcat(a: seq<Passage>, b: seq<Passage>)
    ensures PhasesOf(a + b) == PhasesOf(a) + PhasesOf(b)
  {
  }

  lemma ResumeIsKeyless(rec: RunRecord, inp: RunInput)
    ensures Keyless(ResumeRun(rec, inp).ops)
  {
    ResumeShape(rec, inp);
    if ResumeIndex(rec).Some? {
      LoopHasNoStart(inp.cfg, rec.runId, ResumeIndex(rec).value, ResumeContext(inp.cfg, rec), inp.world);
    }
  }

  /** Where a resume takes the run, as the store sees it. */
  lemma ResumePlace(t: Journey, max: nat, r: string, inp: RunInput) returns (j: nat)
    requires Accounted(t, max, r) && r in t.store.records
    ensures MemoryMoves(t.store.records[r], inp, |t.passed|, j)
    ensures ResumeIndex(t.store.records[r]) == Some(|t.passed|)
    ensures var u := Travel(t, max, r, Resume(inp)); r in u.store.records && Stands(u.store.records[r], r, j)
  {
    var rec := t.store.records[r];
    j := ResumeMoves(rec, |t.passed|, inp);
    ResumeIsKeyless(rec, inp);
    OpsOnRecord(t.store, max, r, ResumeRun(rec, inp).ops);
    AtIndexResumes(rec, |t.passed|);
  }

  /** The phases one resume gets the run past. */
  function PassedBy(k: nat, j: nat, loses: bool): seq<Passage>
    requires k <= j <= PHASES && (loses ==> k < PHASES)
  {
    if loses then [Lost(PHASE_SEQUENCE[k])] else Passing(PHASE_SEQUENCE[k..j])
  }

  lemma PassedByCounts(k: nat, j: nat, loses: bool)
    requires k <= j <= PHASES && (loses ==> j == k + 1)
    ensures var more := PassedBy(k, j, loses);
            PhasesOf(more) == PHASE_SEQUENCE[k..j] && RecordedIn(more) == if loses then [] else PHASE_SEQUENCE[k..j]
  {
    if loses {
      InLost(PHASE_SEQUENCE[k]);
    } else {
      InPassing(PHASE_SEQUENCE[k..j]);
    }
  }

  lemma ResumeAccounted(t: Journey, max: nat, r: string, inp: RunInput)
    requires Accounted(t, max, r) && r in t.store.records
    ensures Accounted(Travel(t, max, r, Resume(inp)), max, r)
  {
    var k, loses := |t.passed|, LosesAt(t.store, r, Resume(inp));
    var j := ResumePlace(t, max, r, inp);
    PassedByCounts(k, j, loses);
    TallyGrows(t.passed, t.history, r, PassedBy(k, j, loses), ResumeRun(t.store.records[r], inp).ops, j);
  }

  lemma CancelAccounted(t: Journey, max: nat, r: string)
    requires Accounted(t, max, r) && r in t.store.records
    ensures Accounted(Travel(t, max, r, Cancel), max, r)
  {
    var rec, k := t.store.records[r], |t.passed|;
    var ops := CallsOf(t.store, r, Cancel);
    MovesNot(rec, k);
    MovesOne(rec, MarkOp(r, Cancelled), k);
    SameWithoutStart(rec, ops);
    SameRepository(rec, ops);
    OpsOnRecord(t.store, max, r, ops);
    TallyGrows(t.passed, t.history, r, [], ops, k);
  }

  /** A call about another run, or a cost stamp, leaves the run's place or evicts the run. */
  lemma ElsewhereKeepsPlace(s: Store, max: nat, r: string, op: Op)
    requires Valid(s, max) && (op.runId != r || op.Attribute?)
    ensures var t := Next(s, max, op);
            r in t.records ==>
              && r in s.records
              && t.records[r].(revision := s.records[r].revision, cost := s.records[r].cost) == s.records[r]
  {
    OnlyWritesChangeTheStore(s, max, op);
    if MemoryLedger.Apply(s, max, op).response.Written? {
      WrittenAdvances(s, max, op);
    }
  }

  lemma DoOne(s: Store, max: nat, op: Op)
    requires Valid(s, max)
    ensures DoAll(s, max, [op]) == Next(s, max, op)
  {
    assert [op][1..] == [] && DoAll(s, max, [op]) == DoAll(Next(s, max, op), max, []);
  }

  lemma ElsewhereStands(s: Store, max: nat, r: string, op: Op, k: nat)
    requires Valid(s, max) && (op.runId != r || op.Attribute?)
    requires r in s.records ==> Stands(s.records[r], r, k)
    ensures r in Next(s, max, op).records ==> r in s.records && Stands(Next(s, max, op).records[r], r, k)
  {
    ElsewhereKeepsPlace(s, max, r, op);
  }

  lemma ElsewhereAccounted(t: Journey, max: nat, r: string, op: Op)
    requires Accounted(t, max, r) && (op.runId != r || op.Attribute?)
    ensures Accounted(Travel(t, max, r, Elsewhere(op)), max, r)
  {
    ElsewhereStands(t.store, max, r, op, |t.passed|);
    DoOne(t.store, max, op);
    assert [op][1..] == [] && Successes([op], r) == [];
    assert t.passed + [] == t.passed;
    if r in t.store.records {
      TallyGrows(t.passed, t.history, r, [], [op], |t.passed|);
    }
  }

  lemma TravelAccounted(t: Journey, max: nat, r: string, e: ChainEvent)
    requires Accounted(t, max, r) && ConcernsOthers(e, r)
    ensures Accounted(Travel(t, max, r, e), max, r)
  {
    match e
    case Elsewhere(op) => ElsewhereAccounted(t, max, r, op);
    case Restart =>
    case Resume(inp) => if r in t.store.records { ResumeAccounted(t, max, r, inp); }
    case Cancel => if r in t.store.records { CancelAccounted(t, max, r); }
  }

  lemma {:induction false} TravelAllAccounted(t: Journey, max: nat, r: string, es: seq<ChainEvent>)
    requires Accounted(t, max, r) && forall i | 0 <= i < |es| :: ConcernsOthers(es[i], r)
    ensures Accounted(TravelAll(t, max, r, es), max, r)
    decreases |es|
  {
    if es != [] {
      TravelAccounted(t, max, r, es[0]);
      TravelAllAccounted(Travel(t, max, r, es[0]), max, r, es[1..]);
    }
  }

  lemma LossIsCounted(t: Journey, max: nat, r: string, e: ChainEvent)
    requires Accounted(t, max, r)
    ensures |LostIn(Travel(t, max, r, e).passed)| == |LostIn(t.passed)| + if LosesAt(t.store, r, e) then 1 else 0
  {
    if LosesAt(t.store, r, e) {
      var k := |t.passed|;
      var j := ResumePlace(t, max, r, e.inp);
      InLost(PHASE_SEQUENCE[k]);
      LostConcat(t.passed, [Lost(PHASE_SEQUENCE[k])]);
    } else {
      var ps := if e.Resume? then Successes(CallsOf(t.store, r, e), r) else [];
      InPassing(ps);
      LostConcat(t.passed, Passing(ps));
      assert Travel(t, max, r, e).passed == t.passed + Passing(ps);
    }
  }

  lemma {:induction false} LossesAreCounted(t: Journey, max: nat, r: string, es: seq<ChainEvent>)
    requires Accounted(t, max, r) && forall i | 0 <= i < |es| :: ConcernsOthers(es[i], r)
    ensures |LostIn(TravelAll(t, max, r, es).passed)| == |LostIn(t.passed)| + Losses(t, max, r, es)
    decreases |es|
  {
    if es != [] {
      TravelAccounted(t, max, r, es[0]);
      LossIsCounted(t, max, r, es[0]);
      LossesAreCounted(Travel(t, max, r, es[0]), max, r, es[1..]);
    }
  }

  // ---- From a first start ---------------------------------------------------

  function FirstStart(s: Store, max: nat, r: string, feature: string, repo: string, key: string, inp: RunInput): Journey
    requires Valid(s, max)
  {
    var ops := StartRun(r, feature, repo, key, inp).ops;
    Journey(DoAll(s, max, ops), ops, Passing(Successes(ops, r)))
  }

  lemma FirstOp(s: Store, max: nat, op: Op)
    requires Valid(s, max) && op.Start? && op.runId != "" && op.repository != ""
    requires op.runId !in s.records && op.key !in s.keyIndex
    ensures var t := Next(s, max, op);
            op.runId in t.records && t.records[op.runId] == MemoryLedger.StartRecord(None, op)
  {
    StartOrder(s, max, op);
  }

  /** What a first start does after its start record. */
  lemma StartCalls(r: string, feature: string, repo: string, key: string, inp: RunInput) returns (j: nat)
    requires r != "" && feature != "" && repo != ""
    ensures var ops := StartRun(r, feature, repo, key, inp).ops;
            && ops != [] && ops[0] == Start(r, repo, key, Some(feature)) && NoStart(ops[1..])
            && Moves(MemoryLedger.StartRecord(None, ops[0]), ops[1..], 0, j)
            && Successes(ops, r) == PHASE_SEQUENCE[0..j] && (MarkOp(r, Complete) in ops ==> j == PHASES)
  {
    j := StartProgress(r, feature, repo, key, inp);
    LoopHasNoStart(inp.cfg, r, 0, FreshContext(inp.cfg, r, feature, repo), inp.world);
    var ops := StartRun(r, feature, repo, key, inp).ops;
    assert ops == [ops[0]] + ops[1..];
    assert Successes(ops, r) == [] + Successes(ops[1..], r);
  }

  lemma StartAccounted(s: Store, max: nat, r: string, feature: string, repo: string, key: string, inp: RunInput)
    requires Valid(s, max) && r !in s.records && key !in s.keyIndex && r != "" && feature != "" && repo != ""
    ensures var t := FirstStart(s, max, r, feature, repo, key, inp);
            r in t.store.records && Accounted(t, max, r) && LostIn(t.passed) == []
  {
    var ops := StartRun(r, feature, repo, key, inp).ops;
    var j := StartCalls(r, feature, repo, key, inp);
    var born := MemoryLedger.StartRecord(None, ops[0]);
    FirstOp(s, max, ops[0]);
    SameWithoutStart(born, ops[1..]);
    SameRepository(born, ops[1..]);
    OpsOnRecord(Next(s, max, ops[0]), max, r, ops[1..]);
    InPassing(PHASE_SEQUENCE[0..j]);
    assert PHASE_SEQUENCE[0..j] == PHASE_SEQUENCE[..j];
  }

  /** The recorded successes are the first phases in order, and the next resume begins
      right after them. */
  ghost predicate Exact(rec: RunRecord, done: seq<PhaseName>) {
    |done| <= PHASES && done == PHASE_SEQUENCE[..|done|] && ResumeIndex(rec) == Some(|done|)
  }

  /** What a journey that lost `lost` phases did to a run: while the run is resident, the
      phases it got past are the first of the sequence, each recorded as a success or
      lost, the next resume begins right after all of them, and that is exact if and only
      if none is lost. */
  ghost predicate Settled(t: Journey, r: string, lost: nat) {
    && |LostIn(t.passed)| == lost
    && (r in t.store.records ==>
          && Tallies(t.passed, t.history, r)
          && ResumeIndex(t.store.records[r]) == Some(|Successes(t.history, r)| + lost)
          && (Exact(t.store.records[r], Successes(t.history, r)) <==> lost == 0))
  }

  lemma AccountedSettles(t: Journey, max: nat, r: string)
    requires Accounted(t, max, r)
    ensures Settled(t, r, |LostIn(t.passed)|)
  {
    RecordedOrLost(t.passed);
    if r in t.store.records {
      AtIndexResumes(t.store.records[r], |t.passed|);
    }
  }

  lemma AccountedChains(begun: Journey, max: nat, r: string, es: seq<ChainEvent>)
    requires Accounted(begun, max, r) && LostIn(begun.passed) == []
    requires forall i | 0 <= i < |es| :: ConcernsOthers(es[i], r)
    ensures Settled(TravelAll(begun, max, r, es), r, Losses(begun, max, r, es))
  {
    TravelAllAccounted(begun, max, r, es);
    AccountedSettles(TravelAll(begun, max, r, es), max, r);
    LossesAreCounted(begun, max, r, es);
  }

  /** Resumes over the in-memory ledger.  Start an unknown run, then let any chain of
      resumes, cancellations and other calls follow.  The run skips one phase for each
      resume of the chain that loses one, so the chain is exact if and only if none does. */
  lemma InMemoryResumeIsExactIff(
    s: Store, max: nat, r: string, feature: string, repo: string, key: string, inp: RunInput, es: seq<ChainEvent>)
    requires Valid(s, max) && r !in s.records && key !in s.keyIndex && r != "" && feature != "" && repo != ""
    requires forall i | 0 <= i < |es| :: ConcernsOthers(es[i], r)
    ensures var begun := FirstStart(s, max, r, feature, repo, key, inp);
            Settled(TravelAll(begun, max, r, es), r, Losses(begun, max, r, es))
  {
    StartAccounted(s, max, r, feature, repo, key, inp);
    AccountedChains(FirstStart(s, max, r, feature, repo, key, inp), max, r, es);
  }
}
