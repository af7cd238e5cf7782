/** Run budgets: the tracker that blocks a run, and the recorder that splits the same
    consumption by phase and by task. */
module Budgets {
  import opened Records
  import opened Text

  datatype Axis =
    | ModelTokens | ModelCostUsd | ToolCalls | ElapsedSeconds | Retries | FilesChanged | DiffSizeBytes

  /** Declaration order, the order in which a check looks for a breach. */
  const AXES: seq<Axis> :=
    [ModelTokens, ModelCostUsd, ToolCalls, ElapsedSeconds, Retries, FilesChanged, DiffSizeBytes]

  const MODEL_AXES := {ModelTokens, ModelCostUsd, ElapsedSeconds}

  type Amounts = map<Axis, real>

  /** Ceilings; an axis that is absent is unlimited. */
  type Ceilings = map<Axis, real>

  function Get(m: Amounts, a: Axis): real {
    if a in m then m[a] else 0.0
  }

  function Add(m: Amounts, a: Axis, v: real): Amounts {
    m[a := Get(m, a) + v]
  }

  predicate Breached(ceilings: Ceilings, consumed: Amounts, a: Axis) {
    a in ceilings && Get(consumed, a) >= ceilings[a]
  }

  datatype Decision = Within | Exhausted(axis: Axis, consumed: real, ceiling: real)

  function AxisIndex(a: Axis): (i: nat)
    ensures i < |AXES| && AXES[i] == a
  {
    match a
    case ModelTokens => 0
    case ModelCostUsd => 1
    case ToolCalls => 2
    case ElapsedSeconds => 3
    case Retries => 4
    case FilesChanged => 5
    case DiffSizeBytes => 6
  }

  /** The first axis from `i` on that has reached its ceiling. */
  function Decide(ceilings: Ceilings, consumed: Amounts, i: nat): (d: Decision)
    requires i <= |AXES|
    decreases |AXES| - i
  {
    if i == |AXES| then Within
    else if Breached(ceilings, consumed, AXES[i]) then
      Exhausted(AXES[i], Get(consumed, AXES[i]), ceilings[AXES[i]])
    else Decide(ceilings, consumed, i + 1)
  }

  class BudgetTracker {
    const ceilings: Ceilings
    var consumed: Amounts

    constructor (ceilings: Ceilings)
      ensures this.ceilings == ceilings && consumed == map[]
    {
      this.ceilings := ceilings;
      consumed := map[];
    }

    method Record(a: Axis, v: real) returns (ok: bool)
      modifies this
      ensures ok <==> v >= 0.0
      ensures consumed == if ok then Add(old(consumed), a, v) else old(consumed)
    {
      ok := v >= 0.0;
      if ok {
        consumed := consumed[a := (if a in consumed then consumed[a] else 0.0) + v];
      }
    }

    method Set(a: Axis, v: real) returns (ok: bool)
      modifies this
      ensures ok <==> v >= 0.0
      ensures consumed == if ok then old(consumed)[a := v] else old(consumed)
    {
      ok := v >= 0.0;
      if ok {
        consumed := consumed[a := v];
      }
    }

    /** The first axis, in declaration order, that has reached its ceiling. */
    method Check() returns (d: Decision)
      ensures d == Decide(ceilings, consumed, 0)
    {
      var i := 0;
      while i < |AXES|
        invariant i <= |AXES|
        invariant Decide(ceilings, consumed, 0) == Decide(ceilings, consumed, i)
      {
        var a := AXES[i];
        if a in ceilings {
          var c := if a in consumed then consumed[a] else 0.0;
          if c >= ceilings[a] {
            return Exhausted(a, c, ceilings[a]);
          }
        }
        i := i + 1;
      }
      d := Within;
    }
  }

  /** A decision blocks exactly when some axis from `i` on is breached, and then it
      reports the breached axis that is declared first, with its numbers. */
  lemma {:induction false} DecisionIsFirstBreach(ceilings: Ceilings, consumed: Amounts, i: nat)
    requires i <= |AXES|
    ensures var d := Decide(ceilings, consumed, i);
            && (d.Within? <==> forall a | AxisIndex(a) >= i :: !Breached(ceilings, consumed, a))
            && (d.Exhausted? ==>
                  && Breached(ceilings, consumed, d.axis) && AxisIndex(d.axis) >= i
                  && d.consumed == Get(consumed, d.axis) && d.ceiling == ceilings[d.axis]
                  && forall a | i <= AxisIndex(a) < AxisIndex(d.axis) :: !Breached(ceilings, consumed, a))
    decreases |AXES| - i
  {
    if i < |AXES| {
      assert AxisIndex(AXES[i]) == i;
      DecisionIsFirstBreach(ceilings, consumed, i + 1);
    }
  }

  /** The amounts after some accepted records. */
  function AddAll(consumed: Amounts, records: seq<(Axis, real)>): Amounts
    decreases |records|
  {
    if records == [] then consumed else AddAll(Add(consumed, records[0].0, records[0].1), records[1..])
  }

  /** Once a check blocks, it stays blocked under any further records, and the axis it
      reports only moves earlier in declaration order. */
  lemma {:induction false} BlockedStaysBlocked(ceilings: Ceilings, consumed: Amounts, records: seq<(Axis, real)>)
    requires Decide(ceilings, consumed, 0).Exhausted?
    requires forall i | 0 <= i < |records| :: records[i].1 >= 0.0
    ensures var d := Decide(ceilings, AddAll(consumed, records), 0);
            d.Exhausted? && AxisIndex(d.axis) <= AxisIndex(Decide(ceilings, consumed, 0).axis)
    decreases |records|
  {
    if records != [] {
      var axis := Decide(ceilings, consumed, 0).axis;
      var next := Add(consumed, records[0].0, records[0].1);
      DecisionIsFirstBreach(ceilings, consumed, 0);
      assert Breached(ceilings, next, axis);
      DecisionIsFirstBreach(ceilings, next, 0);
      BlockedStaysBlocked(ceilings, next, records[1..]);
    }
  }

  /** `Set` is different: after it a check passes exactly when the axis was set below its
      ceiling and no other axis is breached. */
  lemma SetUnblocksIff(ceilings: Ceilings, consumed: Amounts, a: Axis, v: real)
    ensures Decide(ceilings, consumed[a := v], 0).Within? <==>
              && (a !in ceilings || v < ceilings[a])
              && forall b | b != a :: !Breached(ceilings, consumed, b)
  {
    var after := consumed[a := v];
    DecisionIsFirstBreach(ceilings, after, 0);
    assert Decide(ceilings, after, 0).Within? <==> forall b :: !Breached(ceilings, after, b) by {
      assert forall b :: AxisIndex(b) >= 0;
    }
    assert Breached(ceilings, after, a) <==> a in ceilings && v >= ceilings[a];
    assert forall b | b != a :: Breached(ceilings, after, b) <==> Breached(ceilings, consumed, b);
  }

  /** So setting an axis back can unblock a run. */
  lemma SetCanUnblock(a: Axis, ceiling: real)
    requires ceiling > 0.0
    ensures Decide(map[a := ceiling], map[a := ceiling], 0).Exhausted?
    ensures Decide(map[a := ceiling], map[a := ceiling][a := 0.0], 0).Within?
  {
    SetUnblocksIff(map[a := ceiling], map[], a, ceiling);
    SetUnblocksIff(map[a := ceiling], map[a := ceiling], a, 0.0);
    assert map[][a := ceiling] == map[a := ceiling];
  }

  // ---- Two projections of the same consumption ------------------------------

  type Breakdown = map<string, Amounts>

  /** The total of one axis over all entries. */
  ghost function Total(m: Breakdown, a: Axis): real
    decreases |m|
  {
    if m == map[] then 0.0
    else
      var k :| k in m;
      Get(m[k], a) + Total(m - {k}, a)
  }

  lemma {:induction false} TotalSplits(m: Breakdown, k: string, a: Axis)
    requires k in m
    ensures Total(m, a) == Get(m[k], a) + Total(m - {k}, a)
    decreases |m|
  {
    var j :| j in m && Total(m, a) == Get(m[j], a) + Total(m - {j}, a);
    if j != k {
      TotalSplits(m - {j}, k, a);
      TotalSplits(m - {k}, j, a);
      assert m - {j} - {k} == m - {k} - {j};
    }
  }

  function AddTo(m: Breakdown, key: string, a: Axis, v: real): Breakdown {
    m[key := Add(if key in m then m[key] else map[], a, v)]
  }

  lemma TotalAdds(m: Breakdown, key: string, a: Axis, v: real, b: Axis)
    ensures Total(AddTo(m, key, a, v), b) == Total(m, b) + if b == a then v else 0.0
  {
    var t := AddTo(m, key, a, v);
    TotalSplits(t, key, b);
    if key in m {
      TotalSplits(m, key, b);
      assert t - {key} == m - {key};
    } else {
      assert t - {key} == m;
    }
  }

  /** One `record` call. */
  datatype Entry = Entry(phase: string, task: string, axis: Axis, value: real)

  datatype Books = Books(consumed: Amounts, byPhase: Breakdown, byTask: Breakdown)

  predicate Acceptable(filter: set<Axis>, e: Entry) {
    e.value >= 0.0 && !Blank(e.phase) && !Blank(e.task) && e.axis in filter
  }

  function Post(filter: set<Axis>, b: Books, e: Entry): Books {
    if !Acceptable(filter, e) then b
    else Books(Add(b.consumed, e.axis, e.value),
               AddTo(b.byPhase, e.phase, e.axis, e.value), AddTo(b.byTask, e.task, e.axis, e.value))
  }

  function PostAll(filter: set<Axis>, b: Books, es: seq<Entry>): Books
    decreases |es|
  {
    if es == [] then b else PostAll(filter, Post(filter, b, es[0]), es[1..])
  }

  /** Both projections account for the same growth of the tracker, on every axis. */
  ghost predicate Balanced(b: Books, opening: Amounts) {
    forall a :: Total(b.byPhase, a) == Total(b.byTask, a) == Get(b.consumed, a) - Get(opening, a)
  }

  lemma PostConserves(filter: set<Axis>, b: Books, opening: Amounts, e: Entry)
    requires Balanced(b, opening)
    ensures Balanced(Post(filter, b, e), opening)
  {
    var t := Post(filter, b, e);
    if Acceptable(filter, e) {
      forall a ensures Total(t.byPhase, a) == Total(t.byTask, a) == Get(t.consumed, a) - Get(opening, a) {
        TotalAdds(b.byPhase, e.phase, e.axis, e.value, a);
        TotalAdds(b.byTask, e.task, e.axis, e.value, a);
      }
    }
  }

  /** Conservation: whatever is recorded, and whatever is refused, the sum over phases,
      the sum over tasks and the tracker's growth stay equal. */
  lemma {:induction false} RecordsConserve(filter: set<Axis>, b: Books, opening: Amounts, es: seq<Entry>)
    requires Balanced(b, opening)
    ensures Balanced(PostAll(filter, b, es), opening)
    decreases |es|
  {
    if es != [] {
      PostConserves(filter, b, opening, es[0]);
      RecordsConserve(filter, Post(filter, b, es[0]), opening, es[1..]);
    }
  }

  /** The three records of one model invocation, in order. */
  function InvocationEntries(phase: string, task: string, tokens: int, cost: real, elapsed: real): seq<Entry> {
    [Entry(phase, task, ModelTokens, tokens as real),
     Entry(phase, task, ModelCostUsd, cost),
     Entry(phase, task, ElapsedSeconds, elapsed)]
  }

  /** How many records are made before the first one that is refused. */
  function Leading(filter: set<Axis>, es: seq<Entry>): (n: nat)
    ensures n <= |es|
    ensures forall i | 0 <= i < n :: Acceptable(filter, es[i])
    ensures n < |es| ==> !Acceptable(filter, es[n])
  {
    if es != [] && Acceptable(filter, es[0]) then 1 + Leading(filter, es[1..]) else 0
  }

  /** What an invocation books: the records before the first refused one. */
  function PostInvocation(filter: set<Axis>, b: Books, phase: string, task: string,
                          inputTokens: int, outputTokens: int, cost: real, elapsed: real): Books {
    if inputTokens < 0 || outputTokens < 0 || cost < 0.0 || elapsed < 0.0 then b
    else
      var es := InvocationEntries(phase, task, inputTokens + outputTokens, cost, elapsed);
      PostAll(filter, b, es[..Leading(filter, es)])
  }

  /** Invocations of named phases and tasks are booked entirely or not at all if and only
      if the filter lacks the tokens axis or has all three: the default filter is one, but
      a filter without the cost axis books the tokens of an invocation it then refuses. */
  lemma AllOrNothingIff(filter: set<Axis>, phase: string, task: string, tokens: nat, cost: real, elapsed: real)
    requires cost >= 0.0 && elapsed >= 0.0 && !Blank(phase) && !Blank(task)
    ensures Leading(filter, InvocationEntries(phase, task, tokens, cost, elapsed)) in {0, 3}
            <==> ModelTokens !in filter || MODEL_AXES <= filter
  {
    var es := InvocationEntries(phase, task, tokens, cost, elapsed);
    assert es[0].axis == ModelTokens && es[1].axis == ModelCostUsd && es[2].axis == ElapsedSeconds;
  }

  lemma {:induction false} PostAllSnoc(filter: set<Axis>, b: Books, es: seq<Entry>, k: nat)
    requires k < |es|
    decreases k
    ensures PostAll(filter, b, es[..k + 1]) == Post(filter, PostAll(filter, b, es[..k]), es[k])
  {
    if k == 0 {
      assert es[..1][1..] == [];
    } else {
      PostAllSnoc(filter, Post(filter, b, es[0]), es[1..], k - 1);
      assert es[..k + 1][1..] == es[1..][..k] && es[..k][1..] == es[1..][..k - 1];
    }
  }

  /** Three records in a row, stopping at the first refused one. */
  lemma ThreeSteps(filter: set<Axis>, b: Books, es: seq<Entry>)
    requires |es| == 3
    ensures var b1 := Post(filter, b, es[0]);
            var b2 := Post(filter, b1, es[1]);
            PostAll(filter, b, es[..Leading(filter, es)]) ==
            if !Acceptable(filter, es[0]) then b
            else if !Acceptable(filter, es[1]) then b1
            else if !Acceptable(filter, es[2]) then b2
            else Post(filter, b2, es[2])
  {
    PostAllSnoc(filter, b, es, 0);
    PostAllSnoc(filter, b, es, 1);
    PostAllSnoc(filter, b, es, 2);
  }

  function BucketOf(m: Breakdown, key: string): Amounts {
    if key in m then m[key] else map[]
  }

  /** The books grew by these amounts on the tracker, on one phase and on one task, and by
      nothing anywhere else. */
  ghost predicate Grew(before: Books, after: Books, phase: string, task: string, amounts: Amounts) {
    && (forall a :: Get(after.consumed, a) == Get(before.consumed, a) + Get(amounts, a))
    && BucketGrew(before.byPhase, after.byPhase, phase, amounts)
    && BucketGrew(before.byTask, after.byTask, task, amounts)
  }

  ghost predicate BucketGrew(before: Breakdown, after: Breakdown, key: string, amounts: Amounts) {
    forall q, a :: GrewAt(before, after, key, amounts, q, a)
  }

  predicate GrewAt(before: Breakdown, after: Breakdown, key: string, amounts: Amounts, q: string, a: Axis) {
    Get(BucketOf(after, q), a) == Get(BucketOf(before, q), a) + if q == key then Get(amounts, a) else 0.0
  }

  lemma AddGrowsBucket(m: Breakdown, key: string, a: Axis, v: real)
    ensures BucketGrew(m, AddTo(m, key, a, v), key, map[a := v])
  {
    forall q, x ensures GrewAt(m, AddTo(m, key, a, v), key, map[a := v], q, x) {}
  }

  /** An accepted record grows the books by its value on its axis, phase and task. */
  lemma RecordGrows(filter: set<Axis>, b: Books, e: Entry)
    requires Acceptable(filter, e)
    ensures Grew(b, Post(filter, b, e), e.phase, e.task, map[e.axis := e.value])
  {
    AddGrowsBucket(b.byPhase, e.phase, e.axis, e.value);
    AddGrowsBucket(b.byTask, e.task, e.axis, e.value);
  }

  lemma BucketGrowsOn(a: Breakdown, b: Breakdown, c: Breakdown, key: string, first: Amounts, second: Amounts, sum: Amounts)
    requires BucketGrew(a, b, key, first) && BucketGrew(b, c, key, second)
    requires forall x :: Get(sum, x) == Get(first, x) + Get(second, x)
    ensures BucketGrew(a, c, key, sum)
  {
    forall q, x ensures GrewAt(a, c, key, sum, q, x) {
      assert GrewAt(a, b, key, first, q, x) && GrewAt(b, c, key, second, q, x);
    }
  }

  lemma GrowsOn(a: Books, b: Books, c: Books, phase: string, task: string, first: Amounts, second: Amounts, sum: Amounts)
    requires Grew(a, b, phase, task, first) && Grew(b, c, phase, task, second)
    requires forall x :: Get(sum, x) == Get(first, x) + Get(second, x)
    ensures Grew(a, c, phase, task, sum)
  {
    BucketGrowsOn(a.byPhase, b.byPhase, c.byPhase, phase, first, second, sum);
    BucketGrowsOn(a.byTask, b.byTask, c.byTask, task, first, second, sum);
  }

  /** An accepted invocation grows the books by its tokens, its cost and its seconds, each on
      its own axis, and by nothing else. */
  lemma InvocationGrows(filter: set<Axis>, b: Books, phase: string, task: string,
                        inputTokens: int, outputTokens: int, cost: real, elapsed: real)
    requires inputTokens >= 0 && outputTokens >= 0 && cost >= 0.0 && elapsed >= 0.0
    requires !Blank(phase) && !Blank(task) && MODEL_AXES <= filter
    ensures Grew(b, PostInvocation(filter, b, phase, task, inputTokens, outputTokens, cost, elapsed), phase, task,
                 map[ModelTokens := (inputTokens + outputTokens) as real, ModelCostUsd := cost, ElapsedSeconds := elapsed])
  {
    var es := InvocationEntries(phase, task, inputTokens + outputTokens, cost, elapsed);
    var b1 := Post(filter, b, es[0]);
    var b2 := Post(filter, b1, es[1]);
    ThreeSteps(filter, b, es);
    RecordGrows(filter, b, es[0]);
    RecordGrows(filter, b1, es[1]);
    RecordGrows(filter, b2, es[2]);
    ThreeAxesGrow(b, b1, b2, Post(filter, b2, es[2]), phase, task, (inputTokens + outputTokens) as real, cost, elapsed);
  }

  lemma ThreeAxesGrow(b: Books, b1: Books, b2: Books, b3: Books, phase: string, task: string,
                      tokens: real, cost: real, elapsed: real)
    requires Grew(b, b1, phase, task, map[ModelTokens := tokens])
    requires Grew(b1, b2, phase, task, map[ModelCostUsd := cost])
    requires Grew(b2, b3, phase, task, map[ElapsedSeconds := elapsed])
    ensures Grew(b, b3, phase, task, map[ModelTokens := tokens, ModelCostUsd := cost, ElapsedSeconds := elapsed])
  {
    var two := map[ModelTokens := tokens, ModelCostUsd := cost];
    GrowsOn(b, b1, b2, phase, task, map[ModelTokens := tokens], map[ModelCostUsd := cost], two);
    GrowsOn(b, b2, b3, phase, task, two, map[ElapsedSeconds := elapsed],
            map[ModelTokens := tokens, ModelCostUsd := cost, ElapsedSeconds := elapsed]);
  }

  /** Only a filter with all three axes accepts an invocation. */
  lemma AcceptedIff(filter: set<Axis>, phase: string, task: string, tokens: int, cost: real, elapsed: real)
    requires tokens >= 0 && cost >= 0.0 && elapsed >= 0.0
    ensures Leading(filter, InvocationEntries(phase, task, tokens, cost, elapsed)) == 3
            <==> !Blank(phase) && !Blank(task) && MODEL_AXES <= filter
  {
    var es := InvocationEntries(phase, task, tokens, cost, elapsed);
    assert es[0].axis == ModelTokens && es[1].axis == ModelCostUsd && es[2].axis == ElapsedSeconds;
  }

  class PerPhaseBudgetRecorder {
    const tracker: BudgetTracker
    const filter: set<Axis>
    ghost const opening: Amounts
    var byPhase: Breakdown
    var byTask: Breakdown

    function State(): Books
      reads this, tracker
    {
      Books(tracker.consumed, byPhase, byTask)
    }

    /** Holds as long as the tracker is written through this recorder only. */
    ghost predicate Valid()
      reads this, tracker
    {
      Balanced(State(), opening)
    }

    constructor (tracker: BudgetTracker, filter: set<Axis>)
      ensures this.tracker == tracker && this.filter == filter && opening == tracker.consumed
      ensures Valid() && State() == Books(tracker.consumed, map[], map[])
    {
      this.tracker := tracker;
      this.filter := filter;
      opening := tracker.consumed;
      byPhase, byTask := map[], map[];
    }

    method Record(phase: string, task: string, axis: Axis, value: real) returns (ok: bool)
      requires Valid()
      modifies this, tracker
      ensures Valid() && ok == Acceptable(filter, Entry(phase, task, axis, value))
      ensures State() == Post(filter, old(State()), Entry(phase, task, axis, value))
    {
      ghost var entry, before := Entry(phase, task, axis, value), State();
      PostConserves(filter, before, opening, entry);
      if value < 0.0 || Blank(phase) || Blank(task) || axis !in filter {
        return false;
      }
      ok := tracker.Record(axis, value);
      var phaseBucket := if phase in byPhase then byPhase[phase] else map[];
      byPhase := byPhase[phase := phaseBucket[axis := Get(phaseBucket, axis) + value]];
      var taskBucket := if task in byTask then byTask[task] else map[];
      byTask := byTask[task := taskBucket[axis := Get(taskBucket, axis) + value]];
      assert byPhase == AddTo(before.byPhase, phase, axis, value);
      assert byTask == AddTo(before.byTask, task, axis, value);
    }

    /** Three records, of which the first refused one ends the call.  An accepted invocation
        books its tokens, cost and seconds, each on its own axis, and nothing else. */
    method RecordInvocation(phase: string, task: string, inputTokens: int, outputTokens: int, cost: real, elapsed: real)
      returns (ok: bool)
      requires Valid()
      modifies this, tracker
      ensures Valid()
      ensures ok <==>
                && inputTokens >= 0 && outputTokens >= 0 && cost >= 0.0 && elapsed >= 0.0
                && !Blank(phase) && !Blank(task) && MODEL_AXES <= filter
      ensures State() == PostInvocation(filter, old(State()), phase, task, inputTokens, outputTokens, cost, elapsed)
      ensures ok ==>
                Grew(old(State()), State(), phase, task,
                     map[ModelTokens := (inputTokens + outputTokens) as real, ModelCostUsd := cost, ElapsedSeconds := elapsed])
    {
      ghost var before := State();
      ok := RecordThree(phase, task, inputTokens, outputTokens, cost, elapsed);
      if ok {
        InvocationGrows(filter, before, phase, task, inputTokens, outputTokens, cost, elapsed);
      }
    }

    method RecordThree(phase: string, task: string, inputTokens: int, outputTokens: int, cost: real, elapsed: real)
      returns (ok: bool)
      requires Valid()
      modifies this, tracker
      ensures Valid()
      ensures State() == PostInvocation(filter, old(State()), phase, task, inputTokens, outputTokens, cost, elapsed)
      ensures ok <==>
                && inputTokens >= 0 && outputTokens >= 0 && cost >= 0.0 && elapsed >= 0.0
                && !Blank(phase) && !Blank(task) && MODEL_AXES <= filter
    {
      if inputTokens < 0 || outputTokens < 0 || cost < 0.0 || elapsed < 0.0 {
        return false;
      }
      ghost var es := InvocationEntries(phase, task, inputTokens + outputTokens, cost, elapsed);
      ThreeSteps(filter, State(), es);
      AcceptedIff(filter, phase, task, inputTokens + outputTokens, cost, elapsed);
      ok := Record(phase, task, ModelTokens, (inputTokens + outputTokens) as real);
      if ok {
        ok := Record(phase, task, ModelCostUsd, cost);
      }
      if ok {
        ok := Record(phase, task, ElapsedSeconds, elapsed);
      }
    }
  }
}
