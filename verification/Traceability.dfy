/** The traceability report of a plan: which scenario covers which requirement, read
    from the traces of all tasks in one pass. */
module Traceability {
  import opened PlanGraph

  datatype Report = Report(
    requirements: set<string>,
    scenarios: set<string>,
    scenariosOf: map<string, set<string>>,
    requirementsOf: map<string, set<string>>,
    complete: bool,
    tasksMissingRequirements: set<string>,
    missingScenarios: set<string>,
    unmappedRequirements: set<string>,
    orphanScenarios: set<string>)

  // ---- What the traces say ----------------------------------------------------

  ghost predicate Names(traces: seq<Trace>, r: string) {
    exists t | t in traces :: t.requirementId == r
  }

  ghost predicate Covers(traces: seq<Trace>, r: string, s: string) {
    exists t | t in traces :: t.requirementId == r && s in t.scenarioIds
  }

  ghost predicate MapsRequirements(m: map<string, set<string>>, traces: seq<Trace>) {
    && (forall r :: r in m <==> Names(traces, r))
    && (forall r, s | r in m :: s in m[r] <==> Covers(traces, r, s))
  }

  ghost predicate MapsScenarios(m: map<string, set<string>>, traces: seq<Trace>) {
    && (forall s :: s in m <==> exists r :: Covers(traces, r, s))
    && (forall s, r | s in m :: r in m[s] <==> Covers(traces, r, s))
  }

  function TracesOf(tasks: seq<Task>): (traces: seq<Trace>)
    ensures forall x :: x in traces <==> exists t | t in tasks :: x in t.traces
  {
    if tasks == [] then []
    else
      var last := tasks[|tasks| - 1];
      assert tasks == tasks[..|tasks| - 1] + [last];
      TracesOf(tasks[..|tasks| - 1]) + last.traces
  }

  /** The report of a plan.  No scenario is ever an orphan: a scenario is only known
      through a trace, and a trace names a requirement. */
  ghost predicate Reports(r: Report, tasks: seq<Task>) {
    var traces := TracesOf(tasks);
    && MapsRequirements(r.scenariosOf, traces) && r.requirements == r.scenariosOf.Keys
    && MapsScenarios(r.requirementsOf, traces) && r.scenarios == r.requirementsOf.Keys
    && (forall id :: id in r.tasksMissingRequirements <==> exists t | t in tasks :: t.taskId == id && t.traces == [])
    && (forall q :: q in r.missingScenarios <==> Names(traces, q) && forall s :: !Covers(traces, q, s))
    && r.unmappedRequirements == r.missingScenarios
    && r.orphanScenarios == {}
    && r.complete == Complete(tasks)
  }

  /** Every task has a trace, and every requirement a scenario somewhere in the plan. */
  ghost predicate Complete(tasks: seq<Task>) {
    AllHaveTraces(tasks) && AllCovered(TracesOf(tasks))
  }

  ghost predicate AllCovered(traces: seq<Trace>) {
    forall q | Names(traces, q) :: exists s :: Covers(traces, q, s)
  }

  // ---- The pass ---------------------------------------------------------------

  function AddTo(m: map<string, set<string>>, k: string, vs: set<string>): map<string, set<string>> {
    m[k := (if k in m then m[k] else {}) + vs]
  }

  function WithoutValues(m: map<string, set<string>>): set<string> {
    set k | k in m && m[k] == {}
  }

  lemma NamesSnoc(done: seq<Trace>, t: Trace, r: string)
    ensures Names(done + [t], r) <==> Names(done, r) || t.requirementId == r
  {
    assert t in done + [t];
    assert forall x | x in done :: x in done + [t];
  }

  lemma CoversSnoc(done: seq<Trace>, t: Trace, r: string, s: string)
    ensures Covers(done + [t], r, s) <==> Covers(done, r, s) || (t.requirementId == r && s in t.scenarioIds)
  {
    assert t in done + [t];
    assert forall x | x in done :: x in done + [t];
  }

  lemma AddRequirement(m: map<string, set<string>>, done: seq<Trace>, t: Trace)
    requires MapsRequirements(m, done)
    ensures MapsRequirements(AddTo(m, t.requirementId, Elements(t.scenarioIds)), done + [t])
  {
    var after := AddTo(m, t.requirementId, Elements(t.scenarioIds));
    forall r ensures r in after <==> Names(done + [t], r) {
      NamesSnoc(done, t, r);
    }
    forall r, s | r in after ensures s in after[r] <==> Covers(done + [t], r, s) {
      CoversSnoc(done, t, r, s);
      assert r !in m ==> !Names(done, r) && !Covers(done, r, s);
    }
  }

  /** One more scenario of the trace being read. */
  lemma AddScenario(m: map<string, set<string>>, done: seq<Trace>, t: Trace, k: nat)
    requires k < |t.scenarioIds|
    requires MapsScenarios(m, done + [Trace(t.requirementId, t.scenarioIds[..k])])
    ensures MapsScenarios(AddTo(m, t.scenarioIds[k], {t.requirementId}), done + [Trace(t.requirementId, t.scenarioIds[..k + 1])])
  {
    var id := t.scenarioIds[k];
    var part, more := Trace(t.requirementId, t.scenarioIds[..k]), Trace(t.requirementId, t.scenarioIds[..k + 1]);
    var after := AddTo(m, id, {t.requirementId});
    assert more.scenarioIds == part.scenarioIds + [id];
    forall r, s
      ensures Covers(done + [more], r, s) <==> Covers(done + [part], r, s) || (r == t.requirementId && s == id)
    {
      CoversSnoc(done, part, r, s);
      CoversSnoc(done, more, r, s);
    }
    assert Covers(done + [more], t.requirementId, id);
    forall s ensures s in after <==> exists r :: Covers(done + [more], r, s) {
      if s in m {
        var r :| Covers(done + [part], r, s);
        assert Covers(done + [more], r, s);
      }
    }
  }

  lemma NoScenarios(m: map<string, set<string>>, done: seq<Trace>, r: string)
    requires MapsScenarios(m, done)
    ensures MapsScenarios(m, done + [Trace(r, [])])
  {
    forall q, s ensures Covers(done + [Trace(r, [])], q, s) <==> Covers(done, q, s) {
      CoversSnoc(done, Trace(r, []), q, s);
    }
  }

  /** Reading one trace: its scenarios go to its requirement, and its requirement to each
      of its scenarios. */
  method ReadTrace(scenariosOf: map<string, set<string>>, requirementsOf: map<string, set<string>>,
                   trace: Trace, ghost done: seq<Trace>)
    returns (scenariosOf': map<string, set<string>>, requirementsOf': map<string, set<string>>)
    requires MapsRequirements(scenariosOf, done) && MapsScenarios(requirementsOf, done)
    ensures MapsRequirements(scenariosOf', done + [trace]) && MapsScenarios(requirementsOf', done + [trace])
  {
    AddRequirement(scenariosOf, done, trace);
    scenariosOf' := AddTo(scenariosOf, trace.requirementId, Elements(trace.scenarioIds));
    NoScenarios(requirementsOf, done, trace.requirementId);
    requirementsOf' := requirementsOf;
    var k := 0;
    while k < |trace.scenarioIds|
      invariant k <= |trace.scenarioIds|
      invariant MapsScenarios(requirementsOf', done + [Trace(trace.requirementId, trace.scenarioIds[..k])])
    {
      AddScenario(requirementsOf', done, trace, k);
      requirementsOf' := AddTo(requirementsOf', trace.scenarioIds[k], {trace.requirementId});
      k := k + 1;
    }
    assert Trace(trace.requirementId, trace.scenarioIds[..k]) == trace;
  }

  /** The two maps, read in one pass over the tasks and their traces. */
  method BuildReport(tasks: seq<Task>) returns (r: Report)
    ensures MapsRequirements(r.scenariosOf, TracesOf(tasks)) && r.requirements == r.scenariosOf.Keys
    ensures MapsScenarios(r.requirementsOf, TracesOf(tasks)) && r.scenarios == r.requirementsOf.Keys
  {
    var scenariosOf: map<string, set<string>> := map[];
    var requirementsOf: map<string, set<string>> := map[];
    ghost var done: seq<Trace> := [];
    var i := 0;
    while i < |tasks|
      invariant i <= |tasks| && done == TracesOf(tasks[..i])
      invariant MapsRequirements(scenariosOf, done) && MapsScenarios(requirementsOf, done)
    {
      var traces := tasks[i].traces;
      assert tasks[..i + 1][..i] == tasks[..i];
      var j := 0;
      while j < |traces|
        invariant j <= |traces| && done == TracesOf(tasks[..i]) + traces[..j]
        invariant MapsRequirements(scenariosOf, done) && MapsScenarios(requirementsOf, done)
      {
        scenariosOf, requirementsOf := ReadTrace(scenariosOf, requirementsOf, traces[j], done);
        done := done + [traces[j]];
        j := j + 1;
      }
      i := i + 1;
    }
    assert tasks[..|tasks|] == tasks;
    r := Report(scenariosOf.Keys, requirementsOf.Keys, scenariosOf, requirementsOf, true, {}, {}, {}, {});
  }

  method TasksWithoutTraces(tasks: seq<Task>) returns (untraced: set<string>)
    ensures forall id :: id in untraced <==> exists t | t in tasks :: t.taskId == id && t.traces == []
    ensures untraced == {} <==> AllHaveTraces(tasks)
  {
    untraced := {};
    var i := 0;
    while i < |tasks|
      invariant i <= |tasks|
      invariant forall id :: id in untraced <==> exists t | t in tasks[..i] :: t.taskId == id && t.traces == []
    {
      assert tasks[..i + 1] == tasks[..i] + [tasks[i]];
      if tasks[i].traces == [] {
        untraced := untraced + {tasks[i].taskId};
      }
      i := i + 1;
    }
    assert tasks[..i] == tasks;
    assert untraced == {} <==> forall id :: id !in untraced;
    if t :| t in tasks && t.traces == [] {
      assert t.taskId in untraced;
    }
  }

  /** The validator completes the report and never fails. */
  method ValidateTraces(tasks: seq<Task>) returns (r: Report)
    ensures Reports(r, tasks)
  {
    r := BuildReport(tasks);
    var untraced := TasksWithoutTraces(tasks);
    var missing := WithoutValues(r.scenariosOf);
    MissingMeansUncovered(r.scenariosOf, TracesOf(tasks), missing);
    var orphans := WithoutValues(r.requirementsOf);
    NothingIsOrphaned(r.requirementsOf, TracesOf(tasks));
    var complete := untraced == {} && missing == {} && orphans == {};
    r := r.(complete := complete, tasksMissingRequirements := untraced, missingScenarios := missing,
            unmappedRequirements := missing, orphanScenarios := orphans);
  }

  lemma NothingIsOrphaned(m: map<string, set<string>>, traces: seq<Trace>)
    requires MapsScenarios(m, traces)
    ensures WithoutValues(m) == {}
  {
    forall s | s in m ensures m[s] != {} {
      var r :| Covers(traces, r, s);
      assert r in m[s];
    }
  }

  lemma MissingMeansUncovered(m: map<string, set<string>>, traces: seq<Trace>, missing: set<string>)
    requires MapsRequirements(m, traces)
    requires forall q :: q in missing <==> q in m && m[q] == {}
    ensures forall q :: q in missing <==> Names(traces, q) && forall s :: !Covers(traces, q, s)
    ensures missing == {} <==> AllCovered(traces)
  {
    forall q | q in m && m[q] != {} ensures exists s :: Covers(traces, q, s) {
      var s :| s in m[q];
      assert Covers(traces, q, s);
    }
    assert missing == {} <==> forall q :: q !in missing;
  }

  // ---- What a report is good for ------------------------------------------------

  /** The two maps are each other's inverse. */
  lemma MapsAreInverse(r: Report, tasks: seq<Task>, q: string, s: string)
    requires Reports(r, tasks)
    ensures (q in r.scenariosOf && s in r.scenariosOf[q]) <==> (s in r.requirementsOf && q in r.requirementsOf[s])
  {
    var traces := TracesOf(tasks);
    if Covers(traces, q, s) {
      var t :| t in traces && t.requirementId == q && s in t.scenarioIds;
      assert Names(traces, q);
    }
  }

  lemma SameRequirementMap(m: map<string, set<string>>, x: seq<Trace>, n: map<string, set<string>>, y: seq<Trace>)
    requires MapsRequirements(m, x) && MapsRequirements(n, y)
    requires forall t :: t in x <==> t in y
    ensures m == n
  {
    assert m.Keys == n.Keys;
    forall q | q in m ensures m[q] == n[q] {
      assert forall s :: Covers(x, q, s) <==> Covers(y, q, s);
    }
  }

  lemma SameScenarioMap(m: map<string, set<string>>, x: seq<Trace>, n: map<string, set<string>>, y: seq<Trace>)
    requires MapsScenarios(m, x) && MapsScenarios(n, y)
    requires forall t :: t in x <==> t in y
    ensures m == n
  {
    assert forall q, s :: Covers(x, q, s) <==> Covers(y, q, s);
    assert m.Keys == n.Keys;
    forall s | s in m ensures m[s] == n[s] {
      assert forall q :: q in m[s] <==> Covers(x, q, s);
      assert forall q :: q in n[s] <==> Covers(y, q, s);
    }
  }

  /** A report depends on the set of tasks only: neither their order nor repetition
      matters. */
  lemma SameTasksSameReport(r: Report, a: seq<Task>, w: Report, b: seq<Task>)
    requires Reports(r, a) && Reports(w, b)
    requires forall t :: t in a <==> t in b
    ensures r == w
  {
    SameRequirementMap(r.scenariosOf, TracesOf(a), w.scenariosOf, TracesOf(b));
    SameScenarioMap(r.requirementsOf, TracesOf(a), w.requirementsOf, TracesOf(b));
    assert forall q :: Names(TracesOf(a), q) <==> q in r.scenariosOf;
    assert forall q :: Names(TracesOf(b), q) <==> q in r.scenariosOf;
    forall q ensures q in r.missingScenarios <==> q in w.missingScenarios {
      assert forall s :: Covers(TracesOf(a), q, s) <==> Covers(TracesOf(b), q, s);
    }
    assert r.missingScenarios == w.missingScenarios;
    assert r.tasksMissingRequirements == w.tasksMissingRequirements;
    CompleteIff(r, a);
    CompleteIff(w, b);
  }

  /** A plan is complete exactly when its report has nothing missing. */
  lemma CompleteIff(r: Report, tasks: seq<Task>)
    requires Reports(r, tasks)
    ensures r.complete <==> r.tasksMissingRequirements == {} && r.missingScenarios == {}
  {
    assert r.missingScenarios == {} <==> forall q :: q !in r.missingScenarios;
    assert r.tasksMissingRequirements == {} <==> forall id :: id !in r.tasksMissingRequirements;
    if t :| t in tasks && t.traces == [] {
      assert t.taskId in r.tasksMissingRequirements;
    }
  }

  /** A plan that the plan validator accepts has a complete report if and only if no
      requirement it names lacks a scenario: acceptance does not include that. */
  lemma AcceptedPlansLackOnlyScenarios(r: Report, tasks: seq<Task>)
    requires Reports(r, tasks) && Acceptable(tasks)
    ensures r.tasksMissingRequirements == {}
    ensures r.complete <==> forall q | q in r.requirements :: r.scenariosOf[q] != {}
  {
    CompleteIff(r, tasks);
    assert r.tasksMissingRequirements == {} <==> forall id :: id !in r.tasksMissingRequirements;
    forall q | q in r.requirements
      ensures q in r.missingScenarios <==> r.scenariosOf[q] == {}
    {
      assert forall s :: s in r.scenariosOf[q] <==> Covers(TracesOf(tasks), q, s);
    }
    assert r.missingScenarios == {} <==> forall q :: q !in r.missingScenarios;
  }
}
