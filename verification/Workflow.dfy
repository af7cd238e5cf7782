/** The phase transition graph and the histories it admits. */
module Workflow {

  datatype Phase =
    | Intake | Discovery | Specification | Impact | Planning | Execution | Validation
    | Remediation | Review | Delivery | CiMonitoring | Completed | Blocked | Failed

  datatype Status = StatusCreated | StatusRunning | StatusBlocked | StatusFailed | StatusCompleted

  predicate Terminal(p: Phase) {
    p in {Completed, Failed, Blocked}
  }

  /** Where a working phase may go, besides blocked and failed. */
  function Successors(p: Phase): set<Phase> {
    match p
    case Intake => {Discovery}
    case Discovery => {Specification}
    case Specification => {Impact}
    case Impact => {Planning}
    case Planning => {Execution}
    case Execution => {Validation, Planning}
    case Validation => {Review, Remediation, Planning}
    case Remediation => {Validation, Review, Planning}
    case Review => {Delivery, Remediation}
    case Delivery => {CiMonitoring}
    case CiMonitoring => {Completed, Remediation}
    case _ => {}
  }

  predicate Allowed(source: Phase, target: Phase) {
    !Terminal(source) && (target in Successors(source) || target == Blocked || target == Failed)
  }

  /** The table read backwards: where each phase can be entered from.  Only blocked and failed
      can be entered from every working phase; intake is never entered again. */
  lemma EnteredFrom(p: Phase)
    ensures !Allowed(p, Intake)
    ensures Allowed(p, Blocked) <==> !Terminal(p)
    ensures Allowed(p, Failed) <==> !Terminal(p)
    ensures Allowed(p, Discovery) <==> p == Intake
    ensures Allowed(p, Specification) <==> p == Discovery
    ensures Allowed(p, Impact) <==> p == Specification
    ensures Allowed(p, Planning) <==> p in {Impact, Execution, Validation, Remediation}
    ensures Allowed(p, Execution) <==> p == Planning
    ensures Allowed(p, Validation) <==> p in {Execution, Remediation}
    ensures Allowed(p, Remediation) <==> p in {Validation, Review, CiMonitoring}
    ensures Allowed(p, Review) <==> p in {Validation, Remediation}
    ensures Allowed(p, Delivery) <==> p == Review
    ensures Allowed(p, CiMonitoring) <==> p == Delivery
    ensures Allowed(p, Completed) <==> p == CiMonitoring
  {
  }

  datatype State = State(current: Phase, status: Status, history: seq<(Phase, Phase)>)

  datatype Result = Moved(state: State) | InvalidTransition(source: Phase, target: Phase)

  function DeriveStatus(target: Phase): Status {
    match target
    case Completed => StatusCompleted
    case Failed => StatusFailed
    case Blocked => StatusBlocked
    case _ => StatusRunning
  }

  function TransitionTo(s: State, target: Phase): Result {
    if !Allowed(s.current, target) then InvalidTransition(s.current, target)
    else Moved(State(target, DeriveStatus(target), s.history + [(s.current, target)]))
  }

  /** A run from intake through some targets; refused targets change nothing. */
  function Run(status: Status, targets: seq<Phase>): State {
    if targets == [] then State(Intake, status, [])
    else
      var s := Run(status, targets[..|targets| - 1]);
      var r := TransitionTo(s, targets[|targets| - 1]);
      if r.Moved? then r.state else s
  }

  /** The history is a chain of allowed steps from intake to the current phase, and the
      status fits that phase. */
  ghost predicate Coherent(s: State) {
    && (s.history == [] ==> s.current == Intake)
    && (s.history != [] ==>
          && s.history[0].0 == Intake && s.history[|s.history| - 1].1 == s.current
          && s.status == DeriveStatus(s.current))
    && (forall i | 0 <= i < |s.history| :: Allowed(s.history[i].0, s.history[i].1))
    && (forall i | 0 <= i < |s.history| - 1 :: s.history[i].1 == s.history[i + 1].0)
  }

  lemma {:induction false} HistoriesAreChains(status: Status, targets: seq<Phase>)
    ensures Coherent(Run(status, targets))
  {
    if targets != [] {
      HistoriesAreChains(status, targets[..|targets| - 1]);
    }
  }

  /** A terminal phase accepts no step: a run that reached one stays there. */
  lemma {:induction false} TerminalIsFinal(status: Status, targets: seq<Phase>, more: seq<Phase>)
    requires Terminal(Run(status, targets).current)
    ensures Run(status, targets + more) == Run(status, targets)
    decreases |more|
  {
    if more == [] {
      assert targets + more == targets;
    } else {
      var init := more[..|more| - 1];
      assert (targets + more)[..|targets + more| - 1] == targets + init;
      TerminalIsFinal(status, targets, init);
    }
  }

  // ---- What a completed history must contain --------------------------------

  const MILESTONES := [Discovery, Specification, Impact, Planning, Execution, Validation]

  /** The phases a history enters, in order. */
  function Entered(h: seq<(Phase, Phase)>): seq<Phase> {
    if h == [] then [] else Entered(h[..|h| - 1]) + [h[|h| - 1].1]
  }

  /** How many milestones a sequence of phases passes in order, greedily. */
  function Passed(ps: seq<Phase>): (n: nat)
    ensures n <= |MILESTONES|
  {
    if ps == [] then 0
    else
      var n := Passed(ps[..|ps| - 1]);
      if n < |MILESTONES| && ps[|ps| - 1] == MILESTONES[n] then n + 1 else n
  }

  /** `positions` picks the first `n` milestones out of the phases, from left to right. */
  ghost predicate Picks(ps: seq<Phase>, positions: seq<nat>, n: nat) {
    && |positions| == n <= |MILESTONES|
    && (forall i | 0 <= i < n :: positions[i] < |ps| && ps[positions[i]] == MILESTONES[i])
    && (forall i, j | 0 <= i < j < n :: positions[i] < positions[j])
  }

  lemma {:induction false} PassedMilestonesAreASubsequence(ps: seq<Phase>) returns (positions: seq<nat>)
    ensures Picks(ps, positions, Passed(ps))
  {
    if ps == [] {
      positions := [];
    } else {
      var init := ps[..|ps| - 1];
      positions := PassedMilestonesAreASubsequence(init);
      if Passed(ps) > Passed(init) {
        positions := positions + [|ps| - 1];
      }
    }
  }

  /** The milestones that must lie behind a run in each phase. */
  function Behind(p: Phase): nat {
    match p
    case Intake => 0
    case Discovery => 1
    case Specification => 2
    case Impact => 3
    case Planning => 4
    case Execution => 5
    case Blocked => 0
    case Failed => 0
    case _ => 6
  }

  /** One allowed step adds at most the next milestone to what must lie behind. */
  lemma StepBehind(p: Phase, q: Phase)
    requires Allowed(p, q)
    ensures Behind(q) <= Behind(p) ||
            (Behind(p) < |MILESTONES| && q == MILESTONES[Behind(p)] && Behind(q) == Behind(p) + 1)
  {
  }

  lemma PassedSnoc(ps: seq<Phase>, q: Phase)
    ensures Passed(ps + [q]) ==
            if Passed(ps) < |MILESTONES| && q == MILESTONES[Passed(ps)] then Passed(ps) + 1 else Passed(ps)
  {
    assert (ps + [q])[..|ps|] == ps;
  }

  lemma EnteredSnoc(h: seq<(Phase, Phase)>, step: (Phase, Phase))
    ensures Entered(h + [step]) == Entered(h) + [step.1]
  {
    assert (h + [step])[..|h|] == h;
  }

  predicate MilestonesHold(s: State) {
    Passed(Entered(s.history)) >= Behind(s.current)
  }

  /** Passing on from `p` to `q` with enough milestones passed leaves enough of them passed. */
  lemma PassesMilestones(p: Phase, q: Phase, n: nat, m: nat)
    requires Allowed(p, q) && Behind(p) <= n <= |MILESTONES|
    requires m == if n < |MILESTONES| && q == MILESTONES[n] then n + 1 else n
    ensures Behind(q) <= m
  {
    StepBehind(p, q);
  }

  lemma {:induction false} MoveKeepsMilestones(s: State, target: Phase)
    requires MilestonesHold(s) && Allowed(s.current, target)
    ensures MilestonesHold(TransitionTo(s, target).state)
  {
    var before := Entered(s.history);
    EnteredSnoc(s.history, (s.current, target));
    PassedSnoc(before, target);
    PassesMilestones(s.current, target, Passed(before), Passed(before + [target]));
  }

  lemma {:induction false} MilestonesLieBehind(status: Status, targets: seq<Phase>)
    ensures MilestonesHold(Run(status, targets))
  {
    if targets != [] {
      var s, target := Run(status, targets[..|targets| - 1]), targets[|targets| - 1];
      MilestonesLieBehind(status, targets[..|targets| - 1]);
      if Allowed(s.current, target) {
        MoveKeepsMilestones(s, target);
      }
    }
  }

  /** A completed run took review to delivery, delivery to ci monitoring and ci
      monitoring to completed as its last three steps. */
  lemma LastThreeSteps(s: State)
    requires Coherent(s) && s.current == Completed
    ensures var h := s.history;
            |h| >= 3 && h[|h| - 3..] == [(Review, Delivery), (Delivery, CiMonitoring), (CiMonitoring, Completed)]
  {
    var h := s.history;
    var n := |h|;
    assert Allowed(h[n - 1].0, h[n - 1].1);
    assert h[n - 1] == (CiMonitoring, Completed);
    assert n >= 2 && h[n - 2].1 == h[n - 2 + 1].0 && Allowed(h[n - 2].0, h[n - 2].1);
    assert h[n - 2] == (Delivery, CiMonitoring);
    assert n >= 3 && h[n - 3].1 == h[n - 3 + 1].0 && Allowed(h[n - 3].0, h[n - 3].1);
    assert h[n - 3] == (Review, Delivery);
  }

  /** A run can complete only by passing discovery, specification, impact, planning,
      execution and validation in that order after intake, and by ending in review,
      delivery, ci monitoring, completed. */
  lemma CompletedHistories(status: Status, targets: seq<Phase>) returns (positions: seq<nat>)
    requires Run(status, targets).current == Completed
    ensures var h := Run(status, targets).history;
            && Picks(Entered(h), positions, |MILESTONES|)
            && |h| >= 3 && h[0].0 == Intake
            && h[|h| - 3..] == [(Review, Delivery), (Delivery, CiMonitoring), (CiMonitoring, Completed)]
  {
    var s := Run(status, targets);
    HistoriesAreChains(status, targets);
    LastThreeSteps(s);
    MilestonesLieBehind(status, targets);
    positions := PassedMilestonesAreASubsequence(Entered(s.history));
  }
}
