/** What a record says, read off the calls alone: each field is what the last call that
    sets it says. */
module RecordHistory {
  import opened Records
  import opened FileLedger
  import opened LedgerHistory
  import MemoryLedger

  // ---- The last call that sets something --------------------------------------

  /** What the last call sets, among those that set it at all. */
  function Latest<T>(ops: seq<Op>, sets: Op -> Option<T>, otherwise: T): T {
    if ops == [] then otherwise
    else
      var last := ops[|ops| - 1];
      if sets(last).Some? then sets(last).value else Latest(ops[..|ops| - 1], sets, otherwise)
  }

  /** A call that sets it decides; a call that does not leaves it. */
  lemma LatestSnoc<T>(ops: seq<Op>, op: Op, sets: Op -> Option<T>, otherwise: T)
    ensures Latest(ops + [op], sets, otherwise) ==
            if sets(op).Some? then sets(op).value else Latest(ops, sets, otherwise)
  {
    assert (ops + [op])[..|ops|] == ops;
  }

  function StateSet(op: Op): Option<RunState> {
    match op
    case Start(_, _, _, _) => Some(Running)
    case Update(_, state, _, _, _, _) => Some(state)
    case Attribute(_, _, _) => None
  }

  function RepositorySet(op: Op): Option<string> {
    if op.Start? then Some(op.repository) else None
  }

  function KeySet(op: Op): Option<string> {
    if op.Start? then Some(op.key) else None
  }

  function DescriptionSet(op: Op): Option<Option<string>> {
    if op.Start? && op.description.Some? then Some(op.description) else None
  }

  function ContextSet(op: Op): Option<Option<RunContext>> {
    if op.Update? && op.ctx.Some? then Some(op.ctx) else None
  }

  /** The last recorded phase, and the last one recorded as a success. */
  function AttemptSet(op: Op): Option<Option<PhaseChange>> {
    if op.Update? && op.change.Some? then Some(op.change) else None
  }

  function SuccessSet(op: Op): Option<Option<Label>> {
    if op.Update? && op.change.Some? && Succeeded(op.change.value.outcome) then Some(Some(op.change.value.phase)) else None
  }

  // ---- What a record says -----------------------------------------------------

  /** All fields but cursor, phase and cost. */
  ghost predicate TellsFields(rec: RunRecord, ops: seq<Op>) {
    && rec.state == Latest(ops, StateSet, Pending)
    && rec.repository == Latest(ops, RepositorySet, "")
    && rec.idempotencyKey == Latest(ops, KeySet, "")
    && rec.featureDescription == Latest(ops, DescriptionSet, None)
    && rec.ctx == Latest(ops, ContextSet, None)
  }

  /** Where the run stands: the last recorded phase with its outcome, the last success as
      the checkpoint, and the legacy phase, which is the checkpoint or else that phase. */
  ghost predicate TellsPlace(rec: RunRecord, ops: seq<Op>) {
    var checkpoint := Latest(ops, SuccessSet, None);
    && checkpoint != Some(NO_LABEL)
    && match Latest(ops, AttemptSet, None)
       case None => rec.cursor.None? && rec.phase.None? && checkpoint.None?
       case Some(change) =>
         && rec.cursor == Some(PhaseCursor(change.phase, checkpoint,
                                           if Succeeded(change.outcome) then None else Some(change.phase),
                                           change.attempt, change.outcome))
         && rec.phase == Some(if checkpoint.Some? then checkpoint.value else change.phase)
  }

  ghost predicate Tells(rec: RunRecord, ops: seq<Op>) {
    rec.revision == |ops| && TellsFields(rec, ops) && TellsPlace(rec, ops)
  }

  // ---- The durable ledger -----------------------------------------------------

  /** The successful calls on run `r`, and the restarts, in a history. */
  function EventsAt(s: Ledger, e: Event, r: string): seq<Event> {
    if e.Reopen? || (e.op.runId == r && Apply(s.index, e.op).response.Written?) then [e] else []
  }

  function EffectiveEvents(s: Ledger, es: seq<Event>, r: string): seq<Event>
    decreases |es|
  {
    if es == [] then [] else EventsAt(s, es[0], r) + EffectiveEvents(Step(s, es[0]), es[1..], r)
  }

  /** The successful calls on run `r` in a history. */
  function Effective(s: Ledger, es: seq<Event>, r: string): seq<Op> {
    CallsIn(EffectiveEvents(s, es, r))
  }

  /** Induction along a history: what every event carries from the events so far to those
      and its own holds at the end. */
  lemma {:induction false} ByEvents(
    s: Ledger, es: seq<Event>, r: string, before: seq<Event>, holds: (Ledger, seq<Event>) -> bool)
    requires holds(s, before)
    requires forall t, e, evs | holds(t, evs) :: holds(Step(t, e), evs + EventsAt(t, e, r))
    ensures holds(Run(s, es), before + EffectiveEvents(s, es, r))
    decreases |es|
  {
    if es == [] {
      assert before + [] == before;
    } else {
      var now, t := EventsAt(s, es[0], r), Step(s, es[0]);
      ByEvents(t, es[1..], r, before + now, holds);
      assert (before + now) + EffectiveEvents(t, es[1..], r) == before + (now + EffectiveEvents(t, es[1..], r));
    }
  }

  /** The record of a run is told by some calls; a run without a record has had none. */
  ghost predicate ToldBy(index: Index, r: string, ops: seq<Op>) {
    if r in index then Tells(index[r], ops) else ops == []
  }

  lemma {:induction false} AppliedFields(rec: RunRecord, ops: seq<Op>, op: Op, after: RunRecord)
    requires TellsFields(rec, ops)
    requires match op
             case Start(_, _, _, _) => after == StartRecord(Some(rec), op)
             case Update(_, state, change, ctx, _, _) => after == Transition(rec, state, change, ctx)
             case Attribute(_, _, _) => TellsFields(after, ops)
    ensures TellsFields(after, ops + [op])
  {
    LatestSnoc(ops, op, StateSet, Pending);
    LatestSnoc(ops, op, RepositorySet, "");
    LatestSnoc(ops, op, KeySet, "");
    LatestSnoc(ops, op, DescriptionSet, None);
    LatestSnoc(ops, op, ContextSet, None);
  }

  lemma {:induction false} AppliedPlace(rec: RunRecord, ops: seq<Op>, op: Op, after: RunRecord)
    requires TellsPlace(rec, ops)
    requires op.Update? && op.change.Some? ==> op.change.value.phase != NO_LABEL
    requires match op
             case Start(_, _, _, _) => after == StartRecord(Some(rec), op)
             case Update(_, state, change, ctx, _, _) => after == Transition(rec, state, change, ctx)
             case Attribute(_, _, _) => after.cursor == rec.cursor && after.phase == rec.phase
    ensures TellsPlace(after, ops + [op])
  {
    LatestSnoc(ops, op, AttemptSet, None);
    LatestSnoc(ops, op, SuccessSet, None);
  }

  lemma {:induction false} FirstStartTells(op: Op)
    requires op.Start?
    ensures Tells(StartRecord(None, op), [op])
  {
    LatestSnoc([], op, StateSet, Pending);
    LatestSnoc([], op, RepositorySet, "");
    LatestSnoc([], op, KeySet, "");
    LatestSnoc([], op, DescriptionSet, None);
    LatestSnoc([], op, ContextSet, None);
    LatestSnoc([], op, AttemptSet, None);
    LatestSnoc([], op, SuccessSet, None);
    assert [] + [op] == [op];
  }

  lemma {:induction false} SameFieldsTell(rec: RunRecord, after: RunRecord, ops: seq<Op>)
    requires TellsFields(rec, ops) && after.(revision := rec.revision, cost := rec.cost) == rec
    ensures TellsFields(after, ops)
  {
  }

  /** What a successful call makes of a record it finds. */
  ghost predicate Succeeds(rec: RunRecord, op: Op, after: RunRecord) {
    && after.revision == rec.revision + 1
    && match op
       case Start(_, _, _, _) => after == StartRecord(Some(rec), op)
       case Update(_, state, change, ctx, _, _) =>
         after == Transition(rec, state, change, ctx) && (change.Some? ==> change.value.phase != NO_LABEL)
       case Attribute(_, _, _) => after.(revision := rec.revision, cost := rec.cost) == rec
  }

  lemma {:induction false} KnownCallTells(rec: RunRecord, ops: seq<Op>, op: Op, after: RunRecord)
    requires Tells(rec, ops) && Succeeds(rec, op, after)
    ensures Tells(after, ops + [op])
  {
    if op.Attribute? { SameFieldsTell(rec, after, ops); }
    AppliedFields(rec, ops, op, after);
    AppliedPlace(rec, ops, op, after);
  }

  lemma {:induction false} CallSucceeds(index: Index, op: Op)
    requires Apply(index, op).response.Written?
    ensures op.runId in Apply(index, op).index
    ensures if op.runId in index then Succeeds(index[op.runId], op, Apply(index, op).index[op.runId])
            else op.Start? && Apply(index, op).index[op.runId] == StartRecord(None, op)
  {
  }

  /** A successful call adds itself to what the record tells. */
  lemma {:induction false} CallTells(index: Index, op: Op, ops: seq<Op>)
    requires ToldBy(index, op.runId, ops) && Apply(index, op).response.Written?
    ensures ToldBy(Apply(index, op).index, op.runId, ops + [op])
  {
    CallSucceeds(index, op);
    if op.runId in index {
      KnownCallTells(index[op.runId], ops, op, Apply(index, op).index[op.runId]);
    } else {
      FirstStartTells(op);
      assert ops + [op] == [op];
    }
  }

  lemma {:induction false} SameButTells(live: RunRecord, replayed: RunRecord, ops: seq<Op>)
    requires SameBut(live, replayed)
    ensures Tells(live, ops) <==> Tells(replayed, ops)
  {
  }

  lemma {:induction false} EventTells(s: Ledger, e: Event, r: string, evs: seq<Event>)
    requires Refines(s) && ToldBy(s.index, r, CallsIn(evs))
    ensures Refines(Step(s, e)) && ToldBy(Step(s, e).index, r, CallsIn(evs + EventsAt(s, e, r)))
  {
    StepStaysRefined(s, e);
    CallsAdded(s, e, r, evs);
    match e
    case Call(op) =>
      ApplyShape(s.index, op);
      if op.runId == r && Apply(s.index, op).response.Written? {
        CallTells(s.index, op, CallsIn(evs));
      }
    case Reopen =>
      if r in s.index {
        SameButTells(s.index[r], Replay(map[], s.lines)[r], CallsIn(evs));
      }
  }

  lemma CallsAdded(s: Ledger, e: Event, r: string, evs: seq<Event>)
    ensures var wins := e.Call? && e.op.runId == r && Apply(s.index, e.op).response.Written?;
            CallsIn(evs + EventsAt(s, e, r)) == if wins then CallsIn(evs) + [e.op] else CallsIn(evs)
  {
    var now := EventsAt(s, e, r);
    CallsInConcat(evs, now);
    assert now == [e] ==> now[1..] == [];
    assert CallsIn(evs) + [] == CallsIn(evs);
  }

  lemma HistoryTells(s: Ledger, es: seq<Event>, r: string)
    requires Refines(s) && r !in s.index
    ensures ToldBy(Run(s, es).index, r, Effective(s, es, r))
  {
    var holds := (t: Ledger, evs: seq<Event>) => Refines(t) && ToldBy(t.index, r, CallsIn(evs));
    forall t, e, evs | holds(t, evs) ensures holds(Step(t, e), evs + EventsAt(t, e, r)) {
      EventTells(t, e, r, evs);
    }
    ByEvents(s, es, r, [], holds);
    assert [] + EffectiveEvents(s, es, r) == EffectiveEvents(s, es, r);
  }

  /** Over any history of calls and restarts of a fresh log: a run has a record exactly if a
      call on it succeeded; its revision is the number of successful calls; and every field
      but the cost, in the live record and in the replayed one, is what the last
      successful call that sets it says. */
  lemma RecordsTellTheirCalls(es: seq<Event>, r: string)
    ensures var s, ops := Run(EMPTY, es), Effective(EMPTY, es, r);
            && (r in s.index <==> ops != [])
            && (r in s.index ==>
                  && Tells(s.index[r], ops)
                  && r in Replay(map[], s.lines) && Tells(Replay(map[], s.lines)[r], ops))
  {
    var s := Run(EMPTY, es);
    EmptyLedger(r);
    HistoryTells(EMPTY, es, r);
    ReplayRefinesLive(EMPTY, es);
    if r in s.index {
      SameButTells(s.index[r], Replay(map[], s.lines)[r], Effective(EMPTY, es, r));
    }
  }

  // ---- The cost fields of the durable ledger ------------------------------------

  /** One cost field of the live record and of the log, after some calls and restarts.  A
      stamp sets both; a state change forgets the live value; a start logs the live value,
      whatever was logged before; a restart brings the logged value back. */
  function Live<T>(evs: seq<Event>, field: Cost -> Option<T>, loaded: T -> T): Option<T>
    decreases |evs|, 0
  {
    if evs == [] then None
    else
      var init, last := evs[..|evs| - 1], evs[|evs| - 1];
      if last.Reopen? then Logged(init, field, loaded)
      else if last.op.Start? then Live(init, field, loaded)
      else if last.op.Update? then None
      else Or(field(last.op.cost), Live(init, field, loaded))
  }

  function Logged<T>(evs: seq<Event>, field: Cost -> Option<T>, loaded: T -> T): Option<T>
    decreases |evs|, 1
  {
    if evs == [] then None
    else
      var init, last := evs[..|evs| - 1], evs[|evs| - 1];
      if last.Reopen? || last.op.Update? then Logged(init, field, loaded)
      else if last.op.Start? then Loaded(Live(init, field, loaded), loaded)
      else Or(Loaded(field(last.op.cost), loaded), Logged(init, field, loaded))
  }

  /** What the loader makes of a logged value. */
  function Loaded<T>(v: Option<T>, loaded: T -> T): Option<T> {
    if v.Some? then Some(loaded(v.value)) else None
  }

  function Same<T>(v: T): T {
    v
  }

  function TokensOf(c: Cost): Option<int> {
    c.totalTokens
  }

  function UsdOf(c: Cost): Option<real> {
    c.totalCostUsd
  }

  function SecondsOf(c: Cost): Option<real> {
    c.totalElapsedS
  }

  function ByTaskOf(c: Cost): Option<ByTask> {
    c.byTask
  }

  ghost predicate LiveCostTold(c: Cost, evs: seq<Event>) {
    && c.totalTokens == Live(evs, TokensOf, Same)
    && c.totalCostUsd == Live(evs, UsdOf, Same)
    && c.totalElapsedS == Live(evs, SecondsOf, Same)
    && c.byTask == Live(evs, ByTaskOf, CoerceByTask)
  }

  ghost predicate LoggedCostTold(c: Cost, evs: seq<Event>) {
    && c.totalTokens == Logged(evs, TokensOf, Same)
    && c.totalCostUsd == Logged(evs, UsdOf, Same)
    && c.totalElapsedS == Logged(evs, SecondsOf, Same)
    && c.byTask == Logged(evs, ByTaskOf, CoerceByTask)
  }

  lemma LiveSnoc<T>(evs: seq<Event>, e: Event, field: Cost -> Option<T>, loaded: T -> T)
    ensures Live(evs + [e], field, loaded) ==
            if e.Reopen? then Logged(evs, field, loaded)
            else if e.op.Start? then Live(evs, field, loaded)
            else if e.op.Update? then None
            else Or(field(e.op.cost), Live(evs, field, loaded))
    ensures Logged(evs + [e], field, loaded) ==
            if e.Reopen? || e.op.Update? then Logged(evs, field, loaded)
            else if e.op.Start? then Loaded(Live(evs, field, loaded), loaded)
            else Or(Loaded(field(e.op.cost), loaded), Logged(evs, field, loaded))
  {
    assert (evs + [e])[..|evs|] == evs;
  }

  /** The costs of a run, if it has a record, in the live index and in the replayed one. */
  ghost predicate CostsTold(s: Ledger, r: string, evs: seq<Event>) {
    var replayed := Replay(map[], s.lines);
    if r in s.index then r in replayed && LiveCostTold(s.index[r].cost, evs) && LoggedCostTold(replayed[r].cost, evs)
    else LiveCostTold(NO_COST, evs) && LoggedCostTold(NO_COST, evs)
  }

  /** One successful call on the two costs of its run. */
  lemma CallCosts(live: Cost, logged: Cost, evs: seq<Event>, op: Op)
    requires LiveCostTold(live, evs) && LoggedCostTold(logged, evs)
    requires CostKept(live, logged) && NonNegative(live)
    requires op.Attribute? ==> NonNegative(op.cost)
    ensures var after := match op
                         case Start(_, _, _, _) => live
                         case Update(_, _, _, _, _, _) => NO_COST
                         case Attribute(_, cost, _) => OverlayCost(cost, live);
            && LiveCostTold(after, evs + [Call(op)])
            && LoggedCostTold(if op.Start? then CoerceCost(after) else CarryCost(after, logged), evs + [Call(op)])
  {
    LiveSnoc(evs, Call(op), TokensOf, Same);
    LiveSnoc(evs, Call(op), UsdOf, Same);
    LiveSnoc(evs, Call(op), SecondsOf, Same);
    LiveSnoc(evs, Call(op), ByTaskOf, CoerceByTask);
  }

  lemma ReopenCosts(live: Cost, logged: Cost, evs: seq<Event>)
    requires LiveCostTold(live, evs) && LoggedCostTold(logged, evs)
    ensures LiveCostTold(logged, evs + [Reopen]) && LoggedCostTold(logged, evs + [Reopen])
  {
    LiveSnoc(evs, Reopen, TokensOf, Same);
    LiveSnoc(evs, Reopen, UsdOf, Same);
    LiveSnoc(evs, Reopen, SecondsOf, Same);
    LiveSnoc(evs, Reopen, ByTaskOf, CoerceByTask);
  }

  /** What a written call leaves of the two costs. */
  lemma WrittenCosts(s: Ledger, op: Op)
    requires Refines(s) && Apply(s.index, op).response.Written?
    ensures var t, replayed := Step(s, Call(op)), Replay(map[], s.lines);
            var after, logged := Replay(map[], t.lines), if op.runId in replayed then replayed[op.runId].cost else NO_COST;
            var live := if op.runId in s.index then s.index[op.runId].cost else NO_COST;
            && op.runId in t.index && op.runId in after
            && t.index[op.runId].cost == (match op
                                          case Start(_, _, _, _) => live
                                          case Update(_, _, _, _, _, _) => NO_COST
                                          case Attribute(_, cost, _) => OverlayCost(cost, live))
            && after[op.runId].cost == (if op.Start? then CoerceCost(t.index[op.runId].cost)
                                        else CarryCost(t.index[op.runId].cost, logged))
            && forall q | q != op.runId ::
                 && (q in t.index <==> q in s.index) && (q in after <==> q in replayed)
                 && (q in s.index ==> t.index[q] == s.index[q]) && (q in replayed ==> after[q] == replayed[q])
  {
    var a := Apply(s.index, op);
    ApplyShape(s.index, op);
    WriteAgrees(s.index, op, Find(Replay(map[], s.lines), op.runId));
    ReplayAppend(map[], s.lines, a.written.value);
  }

  lemma WrittenCostsTold(s: Ledger, op: Op, evs: seq<Event>)
    requires Refines(s) && CostsTold(s, op.runId, evs) && Apply(s.index, op).response.Written?
    ensures CostsTold(Step(s, Call(op)), op.runId, evs + [Call(op)])
  {
    var r, replayed := op.runId, Replay(map[], s.lines);
    WrittenCosts(s, op);
    if r in s.index {
      CallCosts(s.index[r].cost, replayed[r].cost, evs, op);
    } else {
      CallCosts(NO_COST, NO_COST, evs, op);
    }
  }

  lemma EventCosts(s: Ledger, e: Event, r: string, evs: seq<Event>)
    requires Refines(s) && CostsTold(s, r, evs)
    ensures Refines(Step(s, e)) && CostsTold(Step(s, e), r, evs + EventsAt(s, e, r))
  {
    StepStaysRefined(s, e);
    assert evs + [] == evs;
    if e.Reopen? {
      var replayed := Replay(map[], s.lines);
      ReopenCosts(if r in s.index then s.index[r].cost else NO_COST,
                  if r in replayed then replayed[r].cost else NO_COST, evs);
    } else if Apply(s.index, e.op).response.Written? {
      WrittenCosts(s, e.op);
      if e.op.runId == r {
        WrittenCostsTold(s, e.op, evs);
      }
    } else {
      ApplyShape(s.index, e.op);
      assert s.lines + [] == s.lines;
    }
  }

  /** Over any history of a fresh log, each cost field of a record, in the live index and in
      the replayed one, is what the successful calls and restarts say of that field. */
  lemma CostsTellTheirCalls(es: seq<Event>, r: string)
    ensures CostsTold(Run(EMPTY, es), r, EffectiveEvents(EMPTY, es, r))
  {
    EmptyLedger(r);
    var holds := (t: Ledger, evs: seq<Event>) => Refines(t) && CostsTold(t, r, evs);
    forall t, e, evs | holds(t, evs) ensures holds(Step(t, e), evs + EventsAt(t, e, r)) {
      EventCosts(t, e, r, evs);
    }
    ByEvents(EMPTY, es, r, [], holds);
    assert [] + EffectiveEvents(EMPTY, es, r) == EffectiveEvents(EMPTY, es, r);
  }

  /** A resume forgets a stamp for good: its mark drops the live value, its start record
      logs what is left, and a restart finds nothing. */
  lemma ResumeForgetsStamps(evs: seq<Event>, mark: Op, begin: Op)
    requires mark.Update? && begin.Start?
    ensures var all := evs + [Call(mark)] + [Call(begin)] + [Reopen];
            && Live(all, TokensOf, Same) == None && Live(all, UsdOf, Same) == None
            && Live(all, SecondsOf, Same) == None && Live(all, ByTaskOf, CoerceByTask) == None
  {
    var one, two := evs + [Call(mark)], evs + [Call(mark)] + [Call(begin)];
    LiveSnoc(evs, Call(mark), TokensOf, Same);
    LiveSnoc(evs, Call(mark), UsdOf, Same);
    LiveSnoc(evs, Call(mark), SecondsOf, Same);
    LiveSnoc(evs, Call(mark), ByTaskOf, CoerceByTask);
    LiveSnoc(one, Call(begin), TokensOf, Same);
    LiveSnoc(one, Call(begin), UsdOf, Same);
    LiveSnoc(one, Call(begin), SecondsOf, Same);
    LiveSnoc(one, Call(begin), ByTaskOf, CoerceByTask);
    LiveSnoc(two, Reopen, TokensOf, Same);
    LiveSnoc(two, Reopen, UsdOf, Same);
    LiveSnoc(two, Reopen, SecondsOf, Same);
    LiveSnoc(two, Reopen, ByTaskOf, CoerceByTask);
  }
}
