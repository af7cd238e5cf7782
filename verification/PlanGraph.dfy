/** Plan validation: the path-enumerating search for dependency cycles, and what a
    plan without cycles is good for. */
module PlanGraph {
  import opened Sequences
  import opened Text

  type Graph = map<string, seq<string>>

  function Elements<T(==)>(s: seq<T>): set<T> {
    set x | x in s
  }

  lemma {:induction false} DistinctFits<T>(s: seq<T>, u: set<T>)
    requires Distinct(s) && Elements(s) <= u
    ensures |s| == |Elements(s)| <= |u|
  {
    if s != [] {
      var init, last := s[..|s| - 1], s[|s| - 1];
      assert Elements(s) == Elements(init) + {last};
      DistinctFits(init, u - {last});
    }
    SubsetSize(Elements(s), u);
  }

  lemma {:induction false} SubsetSize<T>(a: set<T>, b: set<T>)
    requires a <= b
    ensures |a| <= |b|
  {
    if a != {} {
      var x :| x in a;
      SubsetSize(a - {x}, b - {x});
    }
  }

  // ---- The search -----------------------------------------------------------

  function IndexOf(s: seq<string>, x: string): (i: nat)
    requires x in s
    ensures i < |s| && s[i] == x && x !in s[..i]
  {
    if s[0] == x then 0 else 1 + IndexOf(s[1..], x)
  }

  /** Paths of the search are free of repetition and stay inside the graph. */
  ghost predicate SearchPath(g: Graph, path: seq<string>) {
    Distinct(path) && Elements(path) <= g.Keys
  }

  /** The cycles found from `node` with `path` behind it, in the order they are found. */
  ghost function CyclesFrom(g: Graph, node: string, path: seq<string>): seq<seq<string>>
    requires SearchPath(g, path)
    decreases |g.Keys| - |path|, 0, 0
  {
    if node in path then [path[IndexOf(path, node)..] + [node]]
    else if node !in g then []
    else
      assert SearchPath(g, path + [node]);
      DistinctFits(path + [node], g.Keys);
      CyclesThrough(g, g[node], path + [node])
  }

  /** The same for every successor in turn. */
  ghost function CyclesThrough(g: Graph, nexts: seq<string>, path: seq<string>): seq<seq<string>>
    requires SearchPath(g, path)
    decreases |g.Keys| - |path|, 1, |nexts|
  {
    if nexts == [] then [] else CyclesFrom(g, nexts[0], path) + CyclesThrough(g, nexts[1..], path)
  }

  // ---- Soundness and completeness of the search -----------------------------

  ghost predicate Edge(g: Graph, a: string, b: string) {
    a in g && b in g[a]
  }

  ghost predicate Walk(g: Graph, p: seq<string>) {
    forall i | 0 <= i < |p| - 1 :: Edge(g, p[i], p[i + 1])
  }

  /** A closed walk that repeats nothing but its start. */
  ghost predicate SimpleCycle(g: Graph, c: seq<string>) {
    |c| >= 2 && c[0] == c[|c| - 1] && Distinct(c[..|c| - 1]) && Walk(g, c)
  }

  ghost predicate Acyclic(g: Graph) {
    forall c :: !SimpleCycle(g, c)
  }

  lemma {:induction false} FromIsSound(g: Graph, node: string, path: seq<string>, c: seq<string>)
    requires SearchPath(g, path) && Walk(g, path + [node])
    requires c in CyclesFrom(g, node, path)
    ensures SimpleCycle(g, c)
    decreases |g.Keys| - |path|, 0, 0
  {
    if node in path {
      var i := IndexOf(path, node);
      assert c == (path + [node])[i..];
      assert c[..|c| - 1] == path[i..];
      forall j | 0 <= j < |c| - 1 ensures Edge(g, c[j], c[j + 1]) {
        assert Edge(g, (path + [node])[i + j], (path + [node])[i + j + 1]);
      }
    } else if node in g {
      assert SearchPath(g, path + [node]);
      DistinctFits(path + [node], g.Keys);
      ThroughIsSound(g, g[node], path + [node], c);
    }
  }

  lemma {:induction false} ThroughIsSound(g: Graph, nexts: seq<string>, path: seq<string>, c: seq<string>)
    requires SearchPath(g, path) && Walk(g, path)
    requires path != [] ==> forall n | n in nexts :: Edge(g, path[|path| - 1], n)
    requires c in CyclesThrough(g, nexts, path)
    ensures SimpleCycle(g, c)
    decreases |g.Keys| - |path|, 1, |nexts|
  {
    assert nexts != [];
    if c in CyclesFrom(g, nexts[0], path) {
      var w := path + [nexts[0]];
      forall i | 0 <= i < |w| - 1 ensures Edge(g, w[i], w[i + 1]) {
        assert nexts[0] in nexts;
        assert i < |path| - 1 ==> Edge(g, path[i], path[i + 1]);
      }
      FromIsSound(g, nexts[0], path, c);
    } else {
      assert forall n | n in nexts[1..] :: n in nexts;
      ThroughIsSound(g, nexts[1..], path, c);
    }
  }

  lemma {:induction false} ThroughIncludes(g: Graph, nexts: seq<string>, path: seq<string>, n: string, c: seq<string>)
    requires SearchPath(g, path) && n in nexts && c in CyclesFrom(g, n, path)
    ensures c in CyclesThrough(g, nexts, path)
    decreases |nexts|
  {
    if nexts[0] != n {
      ThroughIncludes(g, nexts[1..], path, n, c);
    }
  }

  /** Walking along a simple cycle, the search meets its start again and reports it. */
  lemma {:induction false} FromIsComplete(g: Graph, c: seq<string>, k: nat)
    requires SimpleCycle(g, c) && k < |c|
    ensures SearchPath(g, c[..k]) && c in CyclesFrom(g, c[k], c[..k])
    decreases |c| - k
  {
    forall x | x in Elements(c[..k]) ensures x in g {
      var i :| 0 <= i < k && c[i] == x;
      assert Edge(g, c[i], c[i + 1]);
    }
    assert Distinct(c[..k]) by {
      forall i, j | 0 <= i < j < k ensures c[..k][i] != c[..k][j] {
        assert c[..|c| - 1][i] != c[..|c| - 1][j];
      }
    }
    if k == |c| - 1 {
      assert c[..k][0] == c[k];
      assert IndexOf(c[..k], c[k]) == 0;
      assert c[..k][0..] + [c[k]] == c;
    } else {
      FromIsComplete(g, c, k + 1);
      assert c[..k] + [c[k]] == c[..k + 1];
      assert Edge(g, c[k], c[k + 1]);
      ThroughIncludes(g, g[c[k]], c[..k + 1], c[k + 1], c);
      forall i | 0 <= i < k ensures c[i] != c[k] {
        assert c[..|c| - 1][i] != c[..|c| - 1][k];
      }
    }
  }

  /** The search from every node reports exactly the simple cycles of the graph; since a
      rotation of a simple cycle is one too, it reports each in every rotation. */
  lemma ReportsExactlyTheSimpleCycles(g: Graph, ids: seq<string>, c: seq<string>)
    requires Elements(ids) == g.Keys
    ensures SearchPath(g, [])
    ensures c in CyclesThrough(g, ids, []) <==> SimpleCycle(g, c)
  {
    if c in CyclesThrough(g, ids, []) {
      ThroughIsSound(g, ids, [], c);
    }
    if SimpleCycle(g, c) {
      FromIsComplete(g, c, 0);
      assert c[..0] == [];
      assert Edge(g, c[0], c[1]);
      assert c[0] in Elements(ids);
      ThroughIncludes(g, ids, [], c[0], c);
    }
  }

  /** A simple cycle started one node later is a simple cycle too. */
  lemma RotationsAreCycles(g: Graph, c: seq<string>)
    requires SimpleCycle(g, c)
    ensures SimpleCycle(g, c[1..] + [c[1]])
  {
    var n, r := |c|, c[1..] + [c[1]];
    assert Edge(g, c[0], c[1]);
    forall i | 0 <= i < |r| - 1 ensures Edge(g, r[i], r[i + 1]) {
      assert i + 2 < n ==> Edge(g, c[i + 1], c[i + 2]);
    }
    var body := c[..n - 1];
    var init := r[..|r| - 1];
    forall i, j | 0 <= i < j < |init| ensures init[i] != init[j] {
      assert body[i + 1] != (if j == n - 2 then body[0] else body[j + 1]);
    }
  }

  // ---- The search as it runs ------------------------------------------------

  /** Searching one more successor moves its cycles from the rest to the list. */
  lemma SearchStep(g: Graph, nexts: seq<string>, i: nat, path: seq<string>, found: seq<seq<string>>, all: seq<seq<string>>)
    requires SearchPath(g, path) && i < |nexts|
    requires found + CyclesThrough(g, nexts[i..], path) == all
    ensures (found + CyclesFrom(g, nexts[i], path)) + CyclesThrough(g, nexts[i + 1..], path) == all
  {
    assert nexts[i..][1..] == nexts[i + 1..];
  }

  /** Depth-first search that appends to a shared list of cycles. */
  method Dfs(g: Graph, node: string, path: seq<string>, cycles: seq<seq<string>>) returns (found: seq<seq<string>>)
    requires SearchPath(g, path)
    ensures found == cycles + CyclesFrom(g, node, path)
    decreases |g.Keys| - |path|
  {
    found := cycles;
    if node in path {
      var i := IndexOf(path, node);
      return cycles + [path[i..] + [node]];
    }
    if node !in g {
      return;
    }
    assert SearchPath(g, path + [node]);
    DistinctFits(path + [node], g.Keys);
    var i := 0;
    while i < |g[node]|
      invariant i <= |g[node]|
      invariant found + CyclesThrough(g, g[node][i..], path + [node]) == cycles + CyclesFrom(g, node, path)
    {
      SearchStep(g, g[node], i, path + [node], found, cycles + CyclesFrom(g, node, path));
      found := Dfs(g, g[node][i], path + [node], found);
      i := i + 1;
    }
  }

  /** A requirement and the scenarios a task names for it. */
  datatype Trace = Trace(requirementId: string, scenarioIds: seq<string>)

  datatype Task = Task(
    taskId: string,
    dependsOn: seq<string>,
    validationCommands: seq<string>,
    allowedPaths: seq<string>,
    traces: seq<Trace>)

  /** The dependency dict: a repeated id keeps its first place and its last value. */
  function GraphOf(tasks: seq<Task>): Graph {
    if tasks == [] then map[]
    else
      var last := tasks[|tasks| - 1];
      GraphOf(tasks[..|tasks| - 1])[last.taskId := last.dependsOn]
  }

  function IdsOf(tasks: seq<Task>): (ids: seq<string>)
    ensures Elements(ids) == GraphOf(tasks).Keys
    ensures Distinct(ids)
  {
    if tasks == [] then []
    else
      var earlier, id := IdsOf(tasks[..|tasks| - 1]), tasks[|tasks| - 1].taskId;
      if id in earlier then earlier else earlier + [id]
  }

  method BuildGraph(tasks: seq<Task>) returns (g: Graph, ids: seq<string>)
    ensures g == GraphOf(tasks) && ids == IdsOf(tasks)
  {
    g, ids := map[], [];
    var i := 0;
    while i < |tasks|
      invariant i <= |tasks|
      invariant g == GraphOf(tasks[..i]) && ids == IdsOf(tasks[..i])
    {
      var id := tasks[i].taskId;
      assert tasks[..i + 1][..i] == tasks[..i];
      assert id in ids <==> id in Elements(ids);
      if id !in g {
        ids := ids + [id];
      }
      g := g[id := tasks[i].dependsOn];
      i := i + 1;
    }
    assert tasks[..|tasks|] == tasks;
  }

  /** Every cycle, as found by starting the search from each task in turn. */
  method FindDependencyCycles(tasks: seq<Task>) returns (cycles: seq<seq<string>>)
    ensures forall c :: c in cycles <==> SimpleCycle(GraphOf(tasks), c)
  {
    var g, ids := BuildGraph(tasks);
    cycles := [];
    var i := 0;
    while i < |ids|
      invariant i <= |ids|
      invariant cycles + CyclesThrough(g, ids[i..], []) == CyclesThrough(g, ids, [])
    {
      SearchStep(g, ids, i, [], cycles, CyclesThrough(g, ids, []));
      cycles := Dfs(g, ids[i], [], cycles);
      i := i + 1;
    }
    assert cycles + [] == cycles;
    forall c ensures c in cycles <==> SimpleCycle(GraphOf(tasks), c) {
      ReportsExactlyTheSimpleCycles(g, ids, c);
    }
  }

  // ---- Cycles and orders ----------------------------------------------------

  ghost predicate DependenciesAmong(g: Graph, v: string, placed: seq<string>)
    requires v in g
  {
    forall d | d in g[v] :: d in placed
  }

  /** Nodes of the graph, each after all the nodes it depends on. */
  ghost predicate Ordered(g: Graph, order: seq<string>) {
    && Distinct(order) && Elements(order) <= g.Keys
    && forall i | 0 <= i < |order| :: order[i] in g && DependenciesAmong(g, order[i], order[..i])
  }

  ghost predicate Topological(g: Graph, order: seq<string>) {
    Ordered(g, order) && Elements(order) == g.Keys
  }

  ghost predicate Closed(g: Graph) {
    forall v, d | v in g && d in g[v] :: d in g
  }

  ghost predicate ContinuesIn(g: Graph, v: string, s: set<string>)
    requires v in g
  {
    exists d :: d in g[v] && d in s
  }

  lemma WalkSnoc(g: Graph, path: seq<string>, d: string)
    requires path != [] && Walk(g, path) && Edge(g, path[|path| - 1], d)
    ensures Walk(g, path + [d])
  {
    var w := path + [d];
    forall i | 0 <= i < |w| - 1 ensures Edge(g, w[i], w[i + 1]) {
      assert i < |path| - 1 ==> Edge(g, path[i], path[i + 1]);
    }
  }

  lemma ClosingACycle(g: Graph, path: seq<string>, d: string) returns (c: seq<string>)
    requires Distinct(path) && d in path && Walk(g, path + [d])
    ensures SimpleCycle(g, c)
  {
    var k, w := IndexOf(path, d), path + [d];
    c := path[k..] + [d];
    assert c == w[k..] && c[..|c| - 1] == path[k..];
    forall j | 0 <= j < |c| - 1 ensures Edge(g, c[j], c[j + 1]) {
      assert Edge(g, w[k + j], w[k + j + 1]);
    }
  }

  /** Where every node has a successor, a walk must close a cycle. */
  lemma {:induction false} WalkFindsCycle(g: Graph, s: set<string>, path: seq<string>) returns (c: seq<string>)
    requires s <= g.Keys && forall v | v in s :: ContinuesIn(g, v, s)
    requires path != [] && Distinct(path) && Elements(path) <= s && Walk(g, path)
    ensures SimpleCycle(g, c)
    decreases |s| - |path|
  {
    var last := path[|path| - 1];
    assert last in Elements(path);
    assert ContinuesIn(g, last, s);
    var d :| d in g[last] && d in s;
    WalkSnoc(g, path, d);
    if d in path {
      c := ClosingACycle(g, path, d);
    } else {
      DistinctFits(path + [d], s);
      c := WalkFindsCycle(g, s, path + [d]);
    }
  }

  lemma OrderedSnoc(g: Graph, done: seq<string>, v: string)
    requires Ordered(g, done) && v in g && v !in done && DependenciesAmong(g, v, done)
    ensures Ordered(g, done + [v]) && Elements(done + [v]) == Elements(done) + {v}
  {
    var next := done + [v];
    forall i | 0 <= i < |next| ensures next[i] in g && DependenciesAmong(g, next[i], next[..i]) {
      assert next[..i] == if i < |done| then done[..i] else done;
    }
  }

  /** Without cycles, some node that is not placed yet depends on placed nodes only. */
  lemma NextNode(g: Graph, done: seq<string>) returns (v: string)
    requires Closed(g) && Acyclic(g)
    requires g.Keys - Elements(done) != {}
    ensures v in g && v !in done && DependenciesAmong(g, v, done)
  {
    var rest := g.Keys - Elements(done);
    if forall u | u in rest :: !DependenciesAmong(g, u, done) {
      forall u | u in rest ensures ContinuesIn(g, u, rest) {
        assert !DependenciesAmong(g, u, done);
        var d :| d in g[u] && d !in done;
        assert d in rest;
      }
      var u :| u in rest;
      assert Elements([u]) == {u};
      var c := WalkFindsCycle(g, rest, [u]);
      assert false;
    }
    v :| v in rest && DependenciesAmong(g, v, done);
  }

  lemma {:induction false} ExtendOrder(g: Graph, done: seq<string>) returns (order: seq<string>)
    requires Closed(g) && Acyclic(g)
    requires Ordered(g, done)
    ensures Topological(g, order)
    decreases g.Keys - Elements(done)
  {
    if g.Keys - Elements(done) == {} {
      order := done;
      forall x | x in g.Keys ensures x in Elements(done) { assert x !in g.Keys - Elements(done); }
    } else {
      var v := NextNode(g, done);
      OrderedSnoc(g, done, v);
      assert v in g.Keys - Elements(done) && v !in g.Keys - Elements(done + [v]);
      order := ExtendOrder(g, done + [v]);
    }
  }

  // ---- Plans ----------------------------------------------------------------

  predicate SomeNonBlank(ss: seq<string>) {
    exists i | 0 <= i < |ss| :: !Blank(ss[i])
  }

  datatype Verdict =
    | Accepted
    | MissingValidation(taskIds: seq<string>)
    | EmptyAllowedPaths(taskIds: seq<string>)
    | MissingRequirements(taskIds: seq<string>)
    | MissingDependency(pairs: seq<(string, string)>)
    | CircularDependency(cycles: seq<seq<string>>)

  function Offenders(tasks: seq<Task>, ok: Task -> bool): (ids: seq<string>)
    ensures ids == [] <==> forall t | t in tasks :: ok(t)
    ensures forall id :: id in ids <==> exists t | t in tasks :: t.taskId == id && !ok(t)
  {
    if tasks == [] then []
    else
      assert tasks == [tasks[0]] + tasks[1..];
      (if ok(tasks[0]) then [] else [tasks[0].taskId]) + Offenders(tasks[1..], ok)
  }

  function UnknownOf(id: string, deps: seq<string>, known: set<string>): (pairs: seq<(string, string)>)
    ensures pairs == [] <==> forall d | d in deps :: d in known
    ensures forall p :: p in pairs <==> p.0 == id && p.1 in deps && p.1 !in known
  {
    if deps == [] then []
    else
      assert deps == [deps[0]] + deps[1..];
      (if deps[0] in known then [] else [(id, deps[0])]) + UnknownOf(id, deps[1..], known)
  }

  function UnknownDependencies(tasks: seq<Task>, known: set<string>): (pairs: seq<(string, string)>)
    ensures pairs == [] <==> forall t, d | t in tasks && d in t.dependsOn :: d in known
    ensures forall p :: p in pairs <==> p.1 !in known && exists t | t in tasks :: t.taskId == p.0 && p.1 in t.dependsOn
  {
    if tasks == [] then []
    else
      assert tasks == [tasks[0]] + tasks[1..];
      UnknownOf(tasks[0].taskId, tasks[0].dependsOn, known) + UnknownDependencies(tasks[1..], known)
  }

  function Known(tasks: seq<Task>): set<string> {
    set t | t in tasks :: t.taskId
  }

  /** What a plan must be for no rule to fire. */
  ghost predicate Acceptable(tasks: seq<Task>) {
    AllValidated(tasks) && AllHavePaths(tasks) && AllHaveTraces(tasks) && AllKnown(tasks) && Acyclic(GraphOf(tasks))
  }

  ghost predicate AllValidated(tasks: seq<Task>) {
    forall t | t in tasks :: SomeNonBlank(t.validationCommands)
  }

  ghost predicate AllHavePaths(tasks: seq<Task>) {
    forall t | t in tasks :: SomeNonBlank(t.allowedPaths)
  }

  ghost predicate AllHaveTraces(tasks: seq<Task>) {
    forall t | t in tasks :: t.traces != []
  }

  ghost predicate AllKnown(tasks: seq<Task>) {
    forall t, d | t in tasks && d in t.dependsOn :: d in Known(tasks)
  }

  /** A verdict names the first rule that fails and exactly what breaks it. */
  ghost predicate Justified(tasks: seq<Task>, v: Verdict) {
    match v
    case Accepted => Acceptable(tasks)
    case MissingValidation(ids) =>
      && ids != []
      && forall id :: id in ids <==> exists t | t in tasks :: t.taskId == id && !SomeNonBlank(t.validationCommands)
    case EmptyAllowedPaths(ids) =>
      && ids != [] && AllValidated(tasks)
      && forall id :: id in ids <==> exists t | t in tasks :: t.taskId == id && !SomeNonBlank(t.allowedPaths)
    case MissingRequirements(ids) =>
      && ids != [] && AllValidated(tasks) && AllHavePaths(tasks)
      && forall id :: id in ids <==> exists t | t in tasks :: t.taskId == id && t.traces == []
    case MissingDependency(pairs) =>
      && pairs != [] && AllValidated(tasks) && AllHavePaths(tasks) && AllHaveTraces(tasks)
      && forall p :: p in pairs <==>
           p.1 !in Known(tasks) && exists t | t in tasks :: t.taskId == p.0 && p.1 in t.dependsOn
    case CircularDependency(cycles) =>
      && cycles != [] && AllValidated(tasks) && AllHavePaths(tasks) && AllHaveTraces(tasks) && AllKnown(tasks)
      && forall c :: c in cycles <==> SimpleCycle(GraphOf(tasks), c)
  }

  /** At most one rule can be the verdict, so the order of the rules is part of the
      specification. */
  lemma OneVerdict(tasks: seq<Task>, v: Verdict, w: Verdict)
    requires Justified(tasks, v) && Justified(tasks, w)
    ensures v.Accepted? <==> w.Accepted?
    ensures v.MissingValidation? <==> w.MissingValidation?
    ensures v.EmptyAllowedPaths? <==> w.EmptyAllowedPaths?
    ensures v.MissingRequirements? <==> w.MissingRequirements?
    ensures v.MissingDependency? <==> w.MissingDependency?
  {
    SomeBlame(tasks, v);
    SomeBlame(tasks, w);
  }

  /** A verdict other than acceptance contradicts the rule it names. */
  lemma SomeBlame(tasks: seq<Task>, v: Verdict)
    requires Justified(tasks, v)
    ensures v.MissingValidation? ==> !AllValidated(tasks)
    ensures v.EmptyAllowedPaths? ==> !AllHavePaths(tasks)
    ensures v.MissingRequirements? ==> !AllHaveTraces(tasks)
    ensures v.MissingDependency? ==> !AllKnown(tasks)
    ensures v.CircularDependency? ==> !Acyclic(GraphOf(tasks))
  {
    match v
    case Accepted =>
    case MissingValidation(ids) => assert ids[0] in ids;
    case EmptyAllowedPaths(ids) => assert ids[0] in ids;
    case MissingRequirements(ids) => assert ids[0] in ids;
    case MissingDependency(pairs) => assert pairs[0] in pairs;
    case CircularDependency(cycles) => assert cycles[0] in cycles;
  }

  /** The rules run in a fixed order and the first failure is the verdict. */
  method Validate(tasks: seq<Task>) returns (v: Verdict)
    ensures v == Accepted <==> Acceptable(tasks)
    ensures Justified(tasks, v)
  {
    var offenders := Offenders(tasks, (t: Task) => SomeNonBlank(t.validationCommands));
    if offenders != [] {
      return MissingValidation(offenders);
    }
    offenders := Offenders(tasks, (t: Task) => SomeNonBlank(t.allowedPaths));
    if offenders != [] {
      return EmptyAllowedPaths(offenders);
    }
    offenders := Offenders(tasks, (t: Task) => t.traces != []);
    if offenders != [] {
      return MissingRequirements(offenders);
    }
    var unknown := UnknownDependencies(tasks, Known(tasks));
    if unknown != [] {
      return MissingDependency(unknown);
    }
    var cycles := FindDependencyCycles(tasks);
    if cycles != [] {
      assert cycles[0] in cycles && !Acyclic(GraphOf(tasks));
      return CircularDependency(cycles);
    }
    v := Accepted;
  }

  // ---- Schedules ------------------------------------------------------------

  ghost predicate UniqueIds(tasks: seq<Task>) {
    forall i, j | 0 <= i < j < |tasks| :: tasks[i].taskId != tasks[j].taskId
  }

  ghost predicate Precedes(tasks: seq<Task>, order: seq<nat>, b: nat, a: nat)
    requires a < |order| && b < |order|
  {
    && order[a] < |tasks| && order[b] < |tasks|
    && (tasks[order[b]].taskId in tasks[order[a]].dependsOn ==> b < a)
  }

  /** Every task once, and every task after all the tasks it depends on. */
  ghost predicate IsSchedule(tasks: seq<Task>, order: seq<nat>) {
    && Distinct(order)
    && (forall i: nat :: i in order <==> i < |tasks|)
    && (forall a: nat, b: nat | a < |order| && b < |order| :: Precedes(tasks, order, b, a))
  }

  /** All dependencies of all tasks with one id. */
  function MergedDeps(tasks: seq<Task>, id: string): (deps: seq<string>)
    ensures forall d :: d in deps <==> exists t :: t in tasks && t.taskId == id && d in t.dependsOn
  {
    if tasks == [] then []
    else
      assert tasks == [tasks[0]] + tasks[1..];
      (if tasks[0].taskId == id then tasks[0].dependsOn else []) + MergedDeps(tasks[1..], id)
  }

  function Merged(tasks: seq<Task>): Graph {
    map id | id in Known(tasks) :: MergedDeps(tasks, id)
  }

  /** The positions of the tasks with one id, in plan order. */
  function Positions(tasks: seq<Task>, id: string): (ps: seq<nat>)
    ensures Distinct(ps)
    ensures forall i: nat :: i in ps <==> i < |tasks| && tasks[i].taskId == id
  {
    if tasks == [] then []
    else
      var n := |tasks| - 1;
      var earlier := Positions(tasks[..n], id);
      assert forall k | 0 <= k < |earlier| :: earlier[k] in earlier;
      earlier + if tasks[n].taskId == id then [n] else []
  }

  function Expand(tasks: seq<Task>, ids: seq<string>): (order: seq<nat>)
    ensures forall i: nat :: i in order <==> i < |tasks| && tasks[i].taskId in ids
  {
    if ids == [] then []
    else
      assert ids == [ids[0]] + ids[1..];
      Positions(tasks, ids[0]) + Expand(tasks, ids[1..])
  }

  lemma {:induction false} ExpandDistinct(tasks: seq<Task>, ids: seq<string>)
    requires Distinct(ids)
    ensures Distinct(Expand(tasks, ids))
  {
    if ids != [] {
      ExpandDistinct(tasks, ids[1..]);
      var a, b := Positions(tasks, ids[0]), Expand(tasks, ids[1..]);
      forall i, j | 0 <= i < j < |a + b| ensures (a + b)[i] != (a + b)[j] {
        if i < |a| <= j {
          assert (a + b)[i] in a && (a + b)[j] in b;
        }
      }
    }
  }

  lemma {:induction false} ExpandConcat(tasks: seq<Task>, a: seq<string>, b: seq<string>)
    ensures Expand(tasks, a + b) == Expand(tasks, a) + Expand(tasks, b)
  {
    if a == [] {
      assert a + b == b;
    } else {
      assert (a + b)[1..] == a[1..] + b;
      ExpandConcat(tasks, a[1..], b);
    }
  }

  lemma HeadStandsFirst<T>(head: seq<T>, rest: seq<T>, a: nat, b: nat)
    requires Distinct(head + rest) && a < |head + rest| && b < |head + rest|
    requires (head + rest)[a] !in head && (head + rest)[b] in head
    ensures b < a
  {
    var k :| 0 <= k < |head| && head[k] == (head + rest)[b];
    assert (head + rest)[k] == (head + rest)[b];
  }

  /** If one id is among the first `p` of the order and another is not, the tasks of
      the first stand before those of the second. */
  lemma ExpandSeparates(tasks: seq<Task>, ids: seq<string>, p: nat, a: nat, b: nat)
    requires Distinct(ids) && p <= |ids|
    requires a < |Expand(tasks, ids)| && b < |Expand(tasks, ids)|
    requires Expand(tasks, ids)[a] !in Expand(tasks, ids[..p])
    requires Expand(tasks, ids)[b] in Expand(tasks, ids[..p])
    ensures b < a
  {
    assert ids[..p] + ids[p..] == ids;
    ExpandConcat(tasks, ids[..p], ids[p..]);
    ExpandDistinct(tasks, ids);
    HeadStandsFirst(Expand(tasks, ids[..p]), Expand(tasks, ids[p..]), a, b);
  }

  /** In an expanded topological order, a dependency stands before its dependent. */
  lemma ExpandPrecedes(tasks: seq<Task>, ids: seq<string>, a: nat, b: nat)
    requires Topological(Merged(tasks), ids)
    requires a < |Expand(tasks, ids)| && b < |Expand(tasks, ids)|
    ensures Precedes(tasks, Expand(tasks, ids), b, a)
  {
    var order := Expand(tasks, ids);
    assert order[a] in order && order[b] in order;
    var id, d := tasks[order[a]].taskId, tasks[order[b]].taskId;
    if d in tasks[order[a]].dependsOn {
      var p := IndexOf(ids, id);
      assert d in MergedDeps(tasks, id) by { assert tasks[order[a]] in tasks; }
      assert DependenciesAmong(Merged(tasks), ids[p], ids[..p]);
      ExpandSeparates(tasks, ids, p, a, b);
    }
  }

  /** Around a cycle of the merged graph, each position would have to lie before the
      one where the cycle started. */
  lemma {:induction false} CycleDescends(tasks: seq<Task>, order: seq<nat>, c: seq<string>, k: nat) returns (first: nat)
    requires IsSchedule(tasks, order) && SimpleCycle(Merged(tasks), c) && 1 <= k < |c|
    ensures first < |order| && order[first] in order && tasks[order[first]].taskId == c[0]
    ensures forall q: nat | q < |order| && order[q] in order && tasks[order[q]].taskId == c[k] :: q < first
  {
    assert Edge(Merged(tasks), c[k - 1], c[k]);
    var t :| t in tasks && t.taskId == c[k - 1] && c[k] in t.dependsOn;
    var i: nat :| i < |tasks| && tasks[i] == t;
    assert i in order;
    var p: nat :| p < |order| && order[p] == i;
    if k == 1 {
      first := p;
    } else {
      first := CycleDescends(tasks, order, c, k - 1);
      assert p < first;
    }
    forall q: nat | q < |order| && order[q] in order && tasks[order[q]].taskId == c[k] ensures q < first {
      assert Precedes(tasks, order, q, p);
    }
  }

  /** With all dependencies known, a schedule exists exactly when the graph that keeps
      the dependencies of every task, repeated ids included, has no cycle. */
  lemma SchedulableIff(tasks: seq<Task>)
    requires forall t, d | t in tasks && d in t.dependsOn :: d in Known(tasks)
    ensures (exists order :: IsSchedule(tasks, order)) <==> Acyclic(Merged(tasks))
  {
    var g := Merged(tasks);
    if Acyclic(g) {
      assert Closed(g);
      var ids := ExtendOrder(g, []);
      var order := Expand(tasks, ids);
      ExpandDistinct(tasks, ids);
      forall i: nat | i < |tasks| ensures i in order {
        assert tasks[i] in tasks;
        assert tasks[i].taskId in Elements(ids);
      }
      forall a: nat, b: nat | a < |order| && b < |order| ensures Precedes(tasks, order, b, a) {
        ExpandPrecedes(tasks, ids, a, b);
      }
      assert IsSchedule(tasks, order);
    }
    if order :| IsSchedule(tasks, order) {
      forall c ensures !SimpleCycle(g, c) {
        if SimpleCycle(g, c) {
          var first := CycleDescends(tasks, order, c, |c| - 1);
          assert false;
        }
      }
    }
  }

  lemma {:induction false} UniqueIdsLoseNothing(tasks: seq<Task>)
    requires UniqueIds(tasks)
    ensures GraphOf(tasks) == Merged(tasks)
  {
    GraphKeepsLast(tasks);
    var g, m := GraphOf(tasks), Merged(tasks);
    forall id ensures id in g <==> id in m {}
    forall id | id in g ensures g[id] == m[id] {
      var i := LastWith(tasks, id);
      OnlyDeps(tasks, i);
    }
  }

  function LastWith(tasks: seq<Task>, id: string): (i: nat)
    requires id in Known(tasks)
    ensures i < |tasks| && tasks[i].taskId == id
  {
    var n := |tasks| - 1;
    if tasks[n].taskId == id then n
    else
      assert tasks == tasks[..n] + [tasks[n]];
      LastWith(tasks[..n], id)
  }

  /** The dependency dict has the ids of the plan and, for each, its last task's value. */
  lemma {:induction false} GraphKeepsLast(tasks: seq<Task>)
    ensures GraphOf(tasks).Keys == Known(tasks)
    ensures forall id | id in Known(tasks) :: GraphOf(tasks)[id] == tasks[LastWith(tasks, id)].dependsOn
  {
    if tasks != [] {
      var n := |tasks| - 1;
      GraphKeepsLast(tasks[..n]);
      assert tasks == tasks[..n] + [tasks[n]];
      assert Known(tasks) == Known(tasks[..n]) + {tasks[n].taskId};
    }
  }

  lemma {:induction false} OnlyDeps(tasks: seq<Task>, i: nat)
    requires UniqueIds(tasks) && i < |tasks|
    ensures MergedDeps(tasks, tasks[i].taskId) == tasks[i].dependsOn
  {
    if i == 0 {
      NoDeps(tasks[1..], tasks[0].taskId);
      assert tasks[0].dependsOn + [] == tasks[0].dependsOn;
    } else {
      OnlyDeps(tasks[1..], i - 1);
    }
  }

  lemma {:induction false} NoDeps(tasks: seq<Task>, id: string)
    requires forall i | 0 <= i < |tasks| :: tasks[i].taskId != id
    ensures MergedDeps(tasks, id) == []
  {
    if tasks != [] {
      NoDeps(tasks[1..], id);
    }
  }

  /** An accepted plan with unique task ids has a schedule. */
  lemma AcceptedPlansAreSchedulable(tasks: seq<Task>)
    requires Acceptable(tasks) && UniqueIds(tasks)
    ensures exists order :: IsSchedule(tasks, order)
  {
    UniqueIdsLoseNothing(tasks);
    SchedulableIff(tasks);
  }

  /** Three tasks of which the first and the last share an id. */
  function HidingPlan(cmd: string): seq<Task> {
    var traces := [Trace(cmd, [])];
    [Task("A", ["B"], [cmd], [cmd], traces), Task("B", ["A"], [cmd], [cmd], traces), Task("A", [], [cmd], [cmd], traces)]
  }

  lemma HidingPlanGraphs(cmd: string)
    ensures GraphOf(HidingPlan(cmd)) == map["A" := [], "B" := ["A"]]
    ensures Edge(Merged(HidingPlan(cmd)), "A", "B") && Edge(Merged(HidingPlan(cmd)), "B", "A")
  {
    var tasks := HidingPlan(cmd);
    GraphKeepsLast(tasks);
    assert tasks[0] in tasks && tasks[1] in tasks && tasks[2] in tasks;
  }

  /** Repeated ids break this: the last task named A hides that A and B depend on each
      other, so the plan is accepted, but no schedule exists. */
  lemma RepeatedIdsHideACycle(cmd: string)
    requires !Blank(cmd)
    ensures Acceptable(HidingPlan(cmd))
    ensures forall order :: !IsSchedule(HidingPlan(cmd), order)
  {
    var tasks := HidingPlan(cmd);
    assert tasks[0] in tasks && tasks[1] in tasks;
    assert [cmd][0] == cmd;
    HidingPlanGraphs(cmd);
    TwoNodesOneEdge(GraphOf(tasks), "A", "B");
    TwoNodesCycle(Merged(tasks), "A", "B");
    SchedulableIff(tasks);
  }

  lemma TwoNodesOneEdge(g: Graph, a: string, b: string)
    requires a != b && g == map[a := [], b := [a]]
    ensures Acyclic(g)
  {
    forall c ensures !SimpleCycle(g, c) {
      assert |c| >= 2 && Walk(g, c) ==> Edge(g, c[0], c[1]) && (|c| > 2 ==> Edge(g, c[1], c[2]));
    }
  }

  lemma TwoNodesCycle(g: Graph, a: string, b: string)
    requires a != b && Edge(g, a, b) && Edge(g, b, a)
    ensures !Acyclic(g)
  {
    var c := [a, b, a];
    forall i | 0 <= i < |c| - 1 ensures Edge(g, c[i], c[i + 1]) {}
    assert c[..2] == [a, b];
    assert SimpleCycle(g, c);
  }
}
