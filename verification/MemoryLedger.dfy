/** The bounded in-memory ledger: records, insertion order and a reverse index from
    idempotency keys to runs. */
module MemoryLedger {
  import opened Records
  import opened Sequences

  datatype Store = Store(
    records: map<string, RunRecord>,
    order: seq<string>,
    keyIndex: map<string, string>)

  const EMPTY_STORE := Store(map[], [], map[])

  /** The order lists exactly the resident runs, once each. */
  ghost predicate OrderMatches(s: Store) {
    && Distinct(s.order)
    && (forall r :: r in s.order <==> r in s.records)
    && (forall r | r in s.records :: s.records[r].runId == r && s.records[r].revision >= 1)
  }

  /** The key index is exactly the inverse of the residents' non-empty keys. */
  ghost predicate KeysInvert(records: map<string, RunRecord>, keyIndex: map<string, string>) {
    && (forall k | k in keyIndex ::
          k != "" && keyIndex[k] in records && records[keyIndex[k]].idempotencyKey == k)
    && (forall r | r in records && records[r].idempotencyKey != "" ::
          records[r].idempotencyKey in keyIndex && keyIndex[records[r].idempotencyKey] == r)
  }

  ghost predicate Consistent(s: Store) {
    OrderMatches(s) && KeysInvert(s.records, s.keyIndex)
  }

  ghost predicate Valid(s: Store, max: nat) {
    max >= 1 && |s.order| <= max && Consistent(s)
  }

  function WithoutKey(keyIndex: map<string, string>, key: string): map<string, string> {
    if key == "" then keyIndex else keyIndex - {key}
  }

  /** Drops the oldest run, its record and its key. */
  function PopFront(s: Store): Store
    requires s.order != []
  {
    var r := s.order[0];
    Store(s.records - {r}, s.order[1..],
          if r in s.records then WithoutKey(s.keyIndex, s.records[r].idempotencyKey) else s.keyIndex)
  }

  function Evict(s: Store, max: nat): Store
    decreases |s.order|
  {
    if |s.order| <= max then s else Evict(PopFront(s), max)
  }

  /** Replacing a record carries the legacy phase over but not the cursor. */
  function StartRecord(existing: Option<RunRecord>, op: Op): RunRecord
    requires op.Start?
  {
    if existing.Some? then
      var prev := existing.value;
      RunRecord(op.runId, Running, op.repository, op.key, prev.revision + 1,
                prev.phase, prev.ctx, Or(op.description, prev.featureDescription), None, prev.cost)
    else
      RunRecord(op.runId, Running, op.repository, op.key, 1,
                None, None, op.description, None, NO_COST)
  }

  /** The store after a start that passed validation and key dedupe, before eviction. */
  function Enrol(s: Store, op: Op): Store
    requires op.Start?
  {
    var r := op.runId;
    var known := r in s.records;
    var rec := StartRecord(if known then Some(s.records[r]) else None, op);
    var freed := if known && s.records[r].idempotencyKey != op.key
                 then WithoutKey(s.keyIndex, s.records[r].idempotencyKey) else s.keyIndex;
    Store(s.records[r := rec],
          if known then s.order else s.order + [r],
          if op.key != "" then freed[op.key := r] else freed)
  }

  datatype Effect = Effect(store: Store, response: Response)

  predicate AcceptableChange(change: PhaseChange) {
    change.phase != NO_LABEL && !change.outcome.Unlisted? && change.attempt >= 0
  }

  function Apply(s: Store, max: nat, op: Op): Effect
    requires Valid(s, max)
  {
    match op
    case Start(r, repository, key, _) =>
      if r == "" || repository == "" then Effect(s, Invalid)
      else if key in s.keyIndex then
        Effect(s, if s.keyIndex[key] == r then Existing(s.records[r]) else KeyTaken(s.keyIndex[key]))
      else
        var t := Enrol(s, op);
        Effect(Evict(t, max), Written(t.records[r]))
    case Update(r, state, change, ctx, expectedRevision, expectedState) =>
      if change.Some? && !AcceptableChange(change.value) then Effect(s, Invalid)
      else if r !in s.records then Effect(s, UnknownRun)
      else if !Matches(s.records[r], expectedRevision, expectedState) then
        Effect(s, Conflict(s.records[r].revision, s.records[r].state))
      else
        var rec := Transition(s.records[r], state, change, ctx);
        Effect(s.(records := s.records[r := rec]), Written(rec))
    case Attribute(r, cost, expectedRevision) =>
      if r !in s.records then Effect(s, UnknownRun)
      else if !Matches(s.records[r], expectedRevision, None) then
        Effect(s, Conflict(s.records[r].revision, s.records[r].state))
      else
        // a negative amount is stored as it is: the copy is not validated
        var rec := s.records[r].(revision := s.records[r].revision + 1,
                                 cost := OverlayCost(cost, s.records[r].cost));
        Effect(s.(records := s.records[r := rec]), Written(rec))
  }

  // ---- Every operation keeps the store consistent ---------------------------

  lemma PopFrontOrder(s: Store)
    requires OrderMatches(s) && s.order != []
    ensures OrderMatches(PopFront(s))
  {
    var t := PopFront(s);
    assert s.order == [s.order[0]] + t.order;
    forall r ensures r in t.order <==> r in t.records {
      assert r in s.order <==> r == s.order[0] || r in t.order;
    }
  }

  lemma DroppingKeepsKeys(records: map<string, RunRecord>, keyIndex: map<string, string>, r: string)
    requires KeysInvert(records, keyIndex) && r in records
    ensures KeysInvert(records - {r}, WithoutKey(keyIndex, records[r].idempotencyKey))
  {
  }

  lemma PopFrontConsistent(s: Store)
    requires Consistent(s) && s.order != []
    ensures Consistent(PopFront(s))
  {
    PopFrontOrder(s);
    assert s.order[0] in s.order;
    DroppingKeepsKeys(s.records, s.keyIndex, s.order[0]);
  }

  lemma {:induction false} EvictValid(s: Store, max: nat)
    requires Consistent(s) && max >= 1
    ensures Valid(Evict(s, max), max)
    ensures |Evict(s, max).order| <= |s.order|
    ensures Evict(s, max).order == s.order[|s.order| - |Evict(s, max).order|..]
    decreases |s.order|
  {
    if |s.order| > max {
      PopFrontConsistent(s);
      EvictValid(PopFront(s), max);
    }
  }

  lemma EnrolOrder(s: Store, op: Op)
    requires OrderMatches(s) && op.Start?
    ensures OrderMatches(Enrol(s, op))
  {
    var t := Enrol(s, op);
    forall r ensures r in t.order <==> r in t.records {
      assert r in s.order <==> r in s.records;
    }
  }

  /** Giving run `r` the free key `key` (or none) after its old key was freed. */
  lemma RekeyingKeepsKeys(records: map<string, RunRecord>, keyIndex: map<string, string>, r: string, rec: RunRecord)
    requires KeysInvert(records, keyIndex) && rec.idempotencyKey !in keyIndex
    ensures var freed := if r in records then WithoutKey(keyIndex, records[r].idempotencyKey) else keyIndex;
            KeysInvert(records[r := rec], if rec.idempotencyKey != "" then freed[rec.idempotencyKey := r] else freed)
  {
  }

  lemma EnrolConsistent(s: Store, op: Op)
    requires Consistent(s) && op.Start? && op.runId != "" && op.key !in s.keyIndex
    ensures Consistent(Enrol(s, op))
  {
    EnrolOrder(s, op);
    RekeyingKeepsKeys(s.records, s.keyIndex, op.runId, Enrol(s, op).records[op.runId]);
  }

  lemma ReplaceConsistent(s: Store, r: string, rec: RunRecord)
    requires Consistent(s) && r in s.records
    requires rec.runId == r && rec.revision >= 1 && rec.idempotencyKey == s.records[r].idempotencyKey
    ensures Consistent(s.(records := s.records[r := rec]))
  {
    var t := s.(records := s.records[r := rec]);
    forall q ensures q in t.order <==> q in t.records {
      assert q in s.order <==> q in s.records;
    }
  }

  lemma ApplyValid(s: Store, max: nat, op: Op)
    requires Valid(s, max)
    ensures Valid(Apply(s, max, op).store, max)
  {
    var a := Apply(s, max, op);
    if a.response.Written? {
      if op.Start? {
        EnrolConsistent(s, op);
        EvictValid(Enrol(s, op), max);
      } else {
        ReplaceConsistent(s, op.runId, a.response.record);
      }
    }
  }

  /** A call that does not write (a conflict, a taken or repeated key, an unknown run,
      a validation error) leaves the whole store as it was. */
  lemma OnlyWritesChangeTheStore(s: Store, max: nat, op: Op)
    requires Valid(s, max)
    ensures !Apply(s, max, op).response.Written? ==> Apply(s, max, op).store == s
  {
  }

  /** Which calls are refused, and how: an unacceptable phase, outcome or attempt first, then
      an unknown run, then a guard that does not hold. */
  lemma RefusedIff(s: Store, max: nat, op: Op)
    requires Valid(s, max) && !op.Start?
    ensures var r, response := op.runId, Apply(s, max, op).response;
            var unacceptable := op.Update? && op.change.Some? &&
                                (op.change.value.phase == NO_LABEL || op.change.value.outcome.Unlisted? || op.change.value.attempt < 0);
            var stale := r in s.records &&
                         ((op.expectedRevision.Some? && op.expectedRevision.value != s.records[r].revision) ||
                          (op.Update? && op.expectedState.Some? && op.expectedState.value != s.records[r].state));
            && (response == Invalid <==> unacceptable)
            && (response == UnknownRun <==> !unacceptable && r !in s.records)
            && (response.Conflict? <==> !unacceptable && stale)
            && (response.Conflict? ==> response == Conflict(s.records[r].revision, s.records[r].state))
            && (response.Written? <==> !unacceptable && r in s.records && !stale)
  {
  }

  /** Dedupe by key, told by the records alone: a resident with the key answers for it, as
      the existing run or as the key's owner, and a start whose key no resident has is
      written. */
  lemma KeyDecidesStart(s: Store, max: nat, op: Op)
    requires Valid(s, max) && op.Start? && op.runId != "" && op.repository != ""
    ensures var response := Apply(s, max, op).response;
            && (forall q | q in s.records && op.key != "" && s.records[q].idempotencyKey == op.key ::
                  response == if q == op.runId then Existing(s.records[q]) else KeyTaken(q))
            && (response.Written? <==> op.key == "" || forall q | q in s.records :: s.records[q].idempotencyKey != op.key)
  {
    if op.key in s.keyIndex {
      assert s.keyIndex[op.key] in s.records && s.records[s.keyIndex[op.key]].idempotencyKey == op.key;
    }
  }

  lemma EvictAtMostOne(t: Store, max: nat)
    requires |t.order| <= max + 1
    ensures Evict(t, max) == if |t.order| <= max then t else PopFront(t)
  {
  }

  lemma EnrolShape(s: Store, op: Op)
    requires op.Start?
    ensures var t := Enrol(s, op);
            && t.order == (if op.runId in s.records then s.order else s.order + [op.runId])
            && t.records == s.records[op.runId := t.records[op.runId]]
            && t.records[op.runId].revision ==
               (if op.runId in s.records then s.records[op.runId].revision + 1 else 1)
  {
  }

  /** The order after a successful call on run `r`: only an insertion changes it, and
      a full ledger gives up exactly its oldest run. */
  function NextOrder(order: seq<string>, max: nat, r: string): seq<string> {
    if r in order then order
    else if |order| == max && order != [] then order[1..] + [r] else order + [r]
  }

  lemma StartOrder(s: Store, max: nat, op: Op)
    requires Valid(s, max) && op.Start? && op.key !in s.keyIndex
    ensures Evict(Enrol(s, op), max).order == NextOrder(s.order, max, op.runId)
    ensures forall q | q in Evict(Enrol(s, op), max).records ::
              q in Enrol(s, op).records && Enrol(s, op).records[q] == Evict(Enrol(s, op), max).records[q]
    ensures op.runId in Evict(Enrol(s, op), max).records
  {
    var t := Enrol(s, op);
    EnrolShape(s, op);
    EvictAtMostOne(t, max);
    assert op.runId in s.order <==> op.runId in s.records;
    if |t.order| > max {
      assert t.order == s.order + [op.runId];
      assert t.order[1..] == s.order[1..] + [op.runId];
      assert op.runId != s.order[0];
    }
  }

  /** A successful call on run `r` takes it to its next revision (1 when it was not
      resident), keeps every other resident's record, and changes the order only by
      an insertion. */
  ghost predicate Advances(s: Store, t: Store, max: nat, r: string) {
    && t.order == NextOrder(s.order, max, r)
    && r in t.records
    && t.records[r].revision == (if r in s.records then s.records[r].revision + 1 else 1)
    && forall q | q in t.records && q != r :: q in s.records && t.records[q] == s.records[q]
  }

  lemma WrittenAdvances(s: Store, max: nat, op: Op)
    requires Valid(s, max) && Apply(s, max, op).response.Written?
    ensures Advances(s, Apply(s, max, op).store, max, op.runId)
    ensures op.runId !in s.records ==> op.Start?
  {
    assert op.runId in s.order <==> op.runId in s.records;
    if op.Start? {
      EnrolShape(s, op);
      StartOrder(s, max, op);
    }
  }

  // ---- Histories ------------------------------------------------------------

  function Next(s: Store, max: nat, op: Op): (t: Store)
    requires Valid(s, max)
    ensures Valid(t, max)
  {
    ApplyValid(s, max, op);
    Apply(s, max, op).store
  }

  function Run(max: nat, ops: seq<Op>): (s: Store)
    requires max >= 1
    ensures Valid(s, max)
  {
    if ops == [] then EMPTY_STORE
    else
      Next(Run(max, ops[..|ops| - 1]), max, ops[|ops| - 1])
  }

  /** The store before the last call, that call, and whether it wrote. */
  function LastCall(max: nat, ops: seq<Op>): (c: (Store, Op, bool))
    requires max >= 1 && ops != []
    ensures Valid(c.0, max) && c.0 == Run(max, ops[..|ops| - 1]) && c.1 == ops[|ops| - 1]
    ensures if c.2 then Advances(c.0, Run(max, ops), max, c.1.runId) else Run(max, ops) == c.0
  {
    var s, op := Run(max, ops[..|ops| - 1]), ops[|ops| - 1];
    var wrote := Apply(s, max, op).response.Written?;
    assert wrote ==> Advances(s, Run(max, ops), max, op.runId) by {
      if wrote { WrittenAdvances(s, max, op); }
    }
    OnlyWritesChangeTheStore(s, max, op);
    (s, op, wrote)
  }

  /** Every run id ever appended to the order, oldest first. */
  function Inserted(max: nat, ops: seq<Op>): seq<string>
    requires max >= 1
    decreases |ops|
  {
    if ops == [] then []
    else
      var (s, op, wrote) := LastCall(max, ops);
      Inserted(max, ops[..|ops| - 1]) + if wrote && op.runId !in s.order then [op.runId] else []
  }

  predicate IsSuffix(a: seq<string>, b: seq<string>) {
    |a| <= |b| && a == b[|b| - |a|..]
  }

  lemma SuffixStep(order: seq<string>, inserted: seq<string>, max: nat, r: string)
    requires IsSuffix(order, inserted) && max >= 1
    ensures IsSuffix(NextOrder(order, max, r), inserted + if r !in order then [r] else [])
  {
    assert inserted + [] == inserted;
  }

  /** The residents are the latest insertions, in insertion order. */
  lemma {:induction false} OrderIsASuffixOfInsertions(max: nat, ops: seq<Op>)
    requires max >= 1
    ensures IsSuffix(Run(max, ops).order, Inserted(max, ops))
    decreases |ops|
  {
    if ops != [] {
      var (s, op, wrote) := LastCall(max, ops);
      var before := Inserted(max, ops[..|ops| - 1]);
      OrderIsASuffixOfInsertions(max, ops[..|ops| - 1]);
      if wrote {
        SuffixStep(s.order, before, max, op.runId);
      } else {
        assert before + [] == before;
      }
    }
  }

  /** Successful calls on a run since it was last inserted. */
  function MutationsSinceInsertion(max: nat, ops: seq<Op>, r: string): nat
    requires max >= 1
    decreases |ops|
  {
    if ops == [] then 0
    else
      var (s, op, wrote) := LastCall(max, ops);
      if op.runId != r || !wrote then MutationsSinceInsertion(max, ops[..|ops| - 1], r)
      else if r !in s.records then 0
      else MutationsSinceInsertion(max, ops[..|ops| - 1], r) + 1
  }

  lemma {:induction false} RevisionCountsMutations(max: nat, ops: seq<Op>, r: string)
    requires max >= 1
    ensures r in Run(max, ops).records ==>
              Run(max, ops).records[r].revision == 1 + MutationsSinceInsertion(max, ops, r)
    decreases |ops|
  {
    if ops != [] {
      var (s, op, wrote) := LastCall(max, ops);
      if r in s.records {
        RevisionCountsMutations(max, ops[..|ops| - 1], r);
      }
    }
  }

  // ---- Compare-and-swap -----------------------------------------------------

  predicate Wins(max: nat, ops: seq<Op>, i: nat, r: string, n: int)
    requires max >= 1 && i < |ops|
  {
    ops[i].runId == r && Guarded(ops[i], n) && Apply(Run(max, ops[..i]), max, ops[i]).response.Written?
  }

  /** The revision of a run after the first `k` calls, 0 while it is not resident. */
  function RevisionAt(max: nat, ops: seq<Op>, k: nat, r: string): nat
    requires max >= 1 && k <= |ops|
  {
    var s := Run(max, ops[..k]);
    if r in s.records then s.records[r].revision else 0
  }

  ghost predicate ResidentThroughout(max: nat, ops: seq<Op>, i: nat, j: nat, r: string)
    requires max >= 1 && j <= |ops|
  {
    forall k: nat | i <= k <= j :: RevisionAt(max, ops, k, r) > 0
  }

  /** One call leaves a resident's revision or, if it wrote to that run, raises it by one. */
  lemma RevisionStep(max: nat, ops: seq<Op>, k: nat, r: string)
    requires max >= 1 && k < |ops|
    requires RevisionAt(max, ops, k, r) > 0 && RevisionAt(max, ops, k + 1, r) > 0
    ensures var wrote := ops[k].runId == r && Apply(Run(max, ops[..k]), max, ops[k]).response.Written?;
            RevisionAt(max, ops, k + 1, r) == RevisionAt(max, ops, k, r) + if wrote then 1 else 0
  {
    assert ops[..k + 1][..k] == ops[..k];
    var (s, op, wrote) := LastCall(max, ops[..k + 1]);
    assert s == Run(max, ops[..k]) && op == ops[k];
  }

  lemma {:induction false} Climbs(f: seq<nat>, i: nat, j: nat)
    requires i <= j < |f| && forall k | i <= k < j :: f[k] <= f[k + 1]
    ensures f[i] <= f[j]
    decreases j
  {
    if i < j {
      Climbs(f, i, j - 1);
      assert f[j - 1] <= f[j - 1 + 1];
    }
  }

  /** The revisions of a run after 0, 1, ..., `j` calls. */
  function RevisionsUpTo(max: nat, ops: seq<Op>, j: nat, r: string): (f: seq<nat>)
    requires max >= 1 && j <= |ops|
    ensures |f| == j + 1 && forall k | 0 <= k <= j :: f[k] == RevisionAt(max, ops, k, r)
  {
    seq(j + 1, k requires 0 <= k <= j => RevisionAt(max, ops, k, r))
  }

  lemma ResidentRevisionsNeverDrop(max: nat, ops: seq<Op>, i: nat, j: nat, r: string)
    requires max >= 1 && i <= j <= |ops| && ResidentThroughout(max, ops, i, j, r)
    ensures RevisionAt(max, ops, i, r) <= RevisionAt(max, ops, j, r)
  {
    var f := RevisionsUpTo(max, ops, j, r);
    forall k | i <= k < j ensures f[k] <= f[k + 1] {
      RevisionStep(max, ops, k, r);
    }
    Climbs(f, i, j);
  }

  /** A guarded call wins only at the revision it expects. */
  lemma WinnersMatch(max: nat, ops: seq<Op>, i: nat, r: string, n: int)
    requires max >= 1 && i < |ops| && Wins(max, ops, i, r, n)
    ensures RevisionAt(max, ops, i, r) == n
  {
  }

  /** While a run stays resident, one expected revision has at most one winner. */
  lemma OneWinnerWhileResident(max: nat, ops: seq<Op>, i: nat, j: nat, r: string, n: int)
    requires max >= 1 && i < j < |ops|
    requires Wins(max, ops, i, r, n) && ResidentThroughout(max, ops, i, j, r)
    ensures !Wins(max, ops, j, r, n)
  {
    WinnersMatch(max, ops, i, r, n);
    RevisionStep(max, ops, i, r);
    ResidentRevisionsNeverDrop(max, ops, i + 1, j, r);
    if Wins(max, ops, j, r, n) {
      WinnersMatch(max, ops, j, r, n);
      assert false;
    }
  }

  /** A call that only its guards can refuse, with the state guard satisfied. */
  predicate MeetsOtherGuards(op: Op, rec: RunRecord) {
    && (op.Update? && op.change.Some? ==> AcceptableChange(op.change.value))
    && (op.Update? && op.expectedState.Some? ==> op.expectedState.value == rec.state)
  }

  /** A call guarded by a revision wins exactly when the run is resident, the other guards
      hold, and one less than that revision is the number of successful calls since the
      run was inserted: what happened before the insertion does not count. */
  lemma GuardedWinsIff(max: nat, ops: seq<Op>, j: nat, r: string, n: int)
    requires max >= 1 && j < |ops| && ops[j].runId == r && Guarded(ops[j], n)
    ensures var s := Run(max, ops[..j]);
            Wins(max, ops, j, r, n) <==>
              && r in s.records && MeetsOtherGuards(ops[j], s.records[r])
              && MutationsSinceInsertion(max, ops[..j], r) == n - 1
  {
    RevisionCountsMutations(max, ops[..j], r);
  }

  /** Call `k` inserts a run that is not resident. */
  ghost predicate Inserts(max: nat, ops: seq<Op>, k: nat, r: string)
    requires max >= 1 && k < |ops|
  {
    && ops[k].Start? && ops[k].runId == r && Apply(Run(max, ops[..k]), max, ops[k]).response.Written?
    && r !in Run(max, ops[..k]).records && r in Run(max, ops[..k + 1]).records
  }

  lemma Appearing(max: nat, ops: seq<Op>, k: nat, r: string)
    requires max >= 1 && k < |ops| && RevisionAt(max, ops, k, r) == 0 && RevisionAt(max, ops, k + 1, r) > 0
    ensures Inserts(max, ops, k, r)
  {
    assert ops[..k + 1][..k] == ops[..k];
    var (s, op, wrote) := LastCall(max, ops[..k + 1]);
    assert s == Run(max, ops[..k]) && op == ops[k];
    if wrote { WrittenAdvances(s, max, op); }
  }

  lemma {:induction false} LastRise(f: seq<nat>, m: nat, j: nat) returns (k: nat)
    requires m < j < |f| && f[m] == 0 && f[j] > 0
    ensures m <= k < j && f[k] == 0 && f[k + 1] > 0
    decreases j
  {
    if f[j - 1] == 0 {
      k := j - 1;
    } else {
      k := LastRise(f, m, j - 1);
    }
  }

  lemma WinnersAreResident(max: nat, ops: seq<Op>, i: nat, r: string, n: int)
    requires max >= 1 && i < |ops| && Wins(max, ops, i, r, n)
    ensures r in Run(max, ops[..i]).records && RevisionAt(max, ops, i, r) > 0
  {
  }

  lemma SecondWinnerWasAway(max: nat, ops: seq<Op>, i: nat, j: nat, r: string, n: int)
    requires max >= 1 && i < j < |ops| && Wins(max, ops, i, r, n) && Wins(max, ops, j, r, n)
    ensures !ResidentThroughout(max, ops, i, j, r)
  {
    if ResidentThroughout(max, ops, i, j, r) {
      OneWinnerWhileResident(max, ops, i, j, r, n);
    }
  }

  lemma Gap(f: seq<nat>, i: nat, j: nat) returns (k: nat)
    requires i < j < |f| && f[i] > 0 && f[j] > 0 && exists m: nat :: i <= m <= j && f[m] == 0
    ensures i < k < j && f[k] == 0 && f[k + 1] > 0
  {
    var m: nat :| i <= m <= j && f[m] == 0;
    k := LastRise(f, m, j);
  }

  lemma GapIsFilled(max: nat, ops: seq<Op>, i: nat, j: nat, r: string) returns (k: nat)
    requires max >= 1 && i < j <= |ops| && !ResidentThroughout(max, ops, i, j, r)
    requires RevisionAt(max, ops, i, r) > 0 && RevisionAt(max, ops, j, r) > 0
    ensures i < k < j && Inserts(max, ops, k, r)
  {
    var f := RevisionsUpTo(max, ops, j, r);
    k := Gap(f, i, j);
    assert f[k] == RevisionAt(max, ops, k, r) && f[k + 1] == RevisionAt(max, ops, k + 1, r);
    Appearing(max, ops, k, r);
  }

  lemma SecondWinnerNeedsInsertion(max: nat, ops: seq<Op>, i: nat, j: nat, r: string, n: int) returns (k: nat)
    requires max >= 1 && i < j < |ops| && Wins(max, ops, i, r, n) && Wins(max, ops, j, r, n)
    ensures i < k < j && Inserts(max, ops, k, r)
  {
    WinnersAreResident(max, ops, i, r, n);
    WinnersAreResident(max, ops, j, r, n);
    SecondWinnerWasAway(max, ops, i, j, r, n);
    k := GapIsFilled(max, ops, i, j, r);
  }

  /** A second winner for one expected revision takes an eviction and a re-insertion of the
      run in between, and then exactly as many successful calls as the revision says. */
  lemma SecondWinnerIff(max: nat, ops: seq<Op>, i: nat, j: nat, r: string, n: int)
    requires max >= 1 && i < j < |ops| && Wins(max, ops, i, r, n)
    requires ops[j].runId == r && Guarded(ops[j], n)
    ensures var s := Run(max, ops[..j]);
            Wins(max, ops, j, r, n) <==>
              && (exists k | i < k < j :: Inserts(max, ops, k, r))
              && r in s.records && MeetsOtherGuards(ops[j], s.records[r])
              && MutationsSinceInsertion(max, ops[..j], r) == n - 1
  {
    GuardedWinsIff(max, ops, j, r, n);
    if Wins(max, ops, j, r, n) {
      var k := SecondWinnerNeedsInsertion(max, ops, i, j, r, n);
    }
  }

  lemma StartTakesTheOnlySlot(s: Store, r: string, repository: string)
    requires Valid(s, 1) && r !in s.records && r != "" && repository != ""
    ensures var a := Apply(s, 1, Start(r, repository, "", None));
            a.response.Written? && a.store.order == [r] && r in a.store.records && a.store.records[r].revision == 1
  {
    WrittenAdvances(s, 1, Start(r, repository, "", None));
    assert r in s.order <==> r in s.records;
  }

  /** Eviction and re-insertion restart the numbering, so a stale revision wins again:
      the same guarded call succeeds both before and after another run took the slot. */
  lemma EvictionAdmitsTwoWinners(r: string, q: string, repository: string)
    requires r != "" && q != "" && r != q && repository != ""
    ensures var guarded := Update(r, RunState.Paused, None, None, Some(1), None);
            var startR, startQ := Start(r, repository, "", None), Start(q, repository, "", None);
            var s1 := Next(EMPTY_STORE, 1, startR);
            var s2 := Next(s1, 1, guarded);
            var s4 := Next(Next(s2, 1, startQ), 1, startR);
            && Apply(s1, 1, guarded).response.Written?
            && Apply(s4, 1, guarded).response.Written?
  {
    var guarded := Update(r, RunState.Paused, None, None, Some(1), None);
    var startR, startQ := Start(r, repository, "", None), Start(q, repository, "", None);
    var s1 := Next(EMPTY_STORE, 1, startR);
    StartTakesTheOnlySlot(EMPTY_STORE, r, repository);
    var s2 := Next(s1, 1, guarded);
    assert s2.order == [r];
    assert q !in s2.records by { assert q in s2.order <==> q in s2.records; }
    StartTakesTheOnlySlot(s2, q, repository);
    var s3 := Next(s2, 1, startQ);
    assert r !in s3.records by { assert r in s3.order <==> r in s3.records; }
    StartTakesTheOnlySlot(s3, r, repository);
  }

  // ---- Amounts without validation -------------------------------------------

  /** The description of this ledger promises that negative amounts are refused, but the
      copy is not validated: any stamp on a resident run with the right revision is stored,
      and a record without negative amounts stays so exactly if the stamp has none. */
  lemma StampStaysNonNegativeIff(s: Store, max: nat, r: string, cost: Cost, expectedRevision: Option<int>)
    requires Valid(s, max) && r in s.records && NonNegative(s.records[r].cost)
    requires Matches(s.records[r], expectedRevision, None)
    ensures var a := Apply(s, max, Attribute(r, cost, expectedRevision));
            && a.response.Written? && r in a.store.records && a.store.records[r] == a.response.record
            && (NonNegative(a.response.record.cost) <==> NonNegative(cost))
  {
  }

  /** Such a stamp. */
  lemma NegativeStampIsStored(s: Store, max: nat, r: string, tokens: int)
    requires Valid(s, max) && r in s.records && tokens < 0
    ensures var a := Apply(s, max, Attribute(r, NO_COST.(totalTokens := Some(tokens)), None));
            a.response.Written? && r in a.store.records && a.store.records[r].cost.totalTokens == Some(tokens)
  {
  }

  // ---- The ledger object ----------------------------------------------------

  class RunLedger {
    var records: map<string, RunRecord>
    var order: seq<string>
    var keyIndex: map<string, string>
    const maxRecords: nat

    function State(): Store
      reads this
    {
      Store(records, order, keyIndex)
    }

    ghost predicate Invariant()
      reads this
    {
      Valid(State(), maxRecords)
    }

    constructor (max: nat)
      requires max >= 1
      ensures Invariant() && State() == EMPTY_STORE && maxRecords == max
    {
      records, order, keyIndex := map[], [], map[];
      maxRecords := max;
    }

    method EvictOldest()
      modifies this
      ensures State() == Evict(old(State()), maxRecords)
    {
      while |order| > maxRecords
        invariant Evict(State(), maxRecords) == Evict(old(State()), maxRecords)
        decreases |order|
      {
        var evicted := order[0];
        order := order[1..];
        if evicted in records {
          var record := records[evicted];
          records := records - {evicted};
          if record.idempotencyKey != "" {
            keyIndex := keyIndex - {record.idempotencyKey};
          }
        } else {
          records := records - {evicted};
        }
      }
    }

    /** Adds or replaces a record whose key is free, before eviction. */
    method AddOrReplace(runId: string, repository: string, key: string, description: Option<string>)
      returns (rec: RunRecord)
      modifies this
      ensures var op := Start(runId, repository, key, description);
              State() == Enrol(old(State()), op) && rec == Enrol(old(State()), op).records[runId]
    {
      rec := RunRecord(runId, Running, repository, key, 1, None, None, description, None, NO_COST);
      if runId in records {
        var prev := records[runId];
        if prev.idempotencyKey != "" && prev.idempotencyKey != key {
          keyIndex := keyIndex - {prev.idempotencyKey};
        }
        rec := rec.(revision := prev.revision + 1, phase := prev.phase, ctx := prev.ctx,
                    featureDescription := if description.Some? then description else prev.featureDescription,
                    cost := prev.cost);
      } else {
        order := order + [runId];
      }
      records := records[runId := rec];
      if key != "" {
        keyIndex := keyIndex[key := runId];
      }
    }

    method RecordStart(runId: string, repository: string, key: string, description: Option<string>)
      returns (response: Response)
      requires Invariant()
      modifies this
      ensures Invariant()
      ensures var a := Apply(old(State()), maxRecords, Start(runId, repository, key, description));
              State() == a.store && response == a.response
    {
      ApplyValid(State(), maxRecords, Start(runId, repository, key, description));
      if runId == "" || repository == "" {
        return Invalid;
      }
      if key in keyIndex {
        if keyIndex[key] == runId {
          return Existing(records[runId]);
        }
        return KeyTaken(keyIndex[key]);
      }
      var rec := AddOrReplace(runId, repository, key, description);
      EvictOldest();
      response := Written(rec);
    }

    method UpdateState(
      runId: string, state: RunState, change: Option<PhaseChange>, ctx: Option<RunContext>,
      expectedRevision: Option<int>, expectedState: Option<RunState>) returns (response: Response)
      requires Invariant()
      requires change.Some? ==> AcceptableChange(change.value)
      modifies this`records
      ensures Invariant()
      ensures var a := Apply(old(State()), maxRecords, Update(runId, state, change, ctx, expectedRevision, expectedState));
              State() == a.store && response == a.response
    {
      ApplyValid(State(), maxRecords, Update(runId, state, change, ctx, expectedRevision, expectedState));
      if runId !in records {
        return UnknownRun;
      }
      var rec := records[runId];
      if expectedRevision.Some? && expectedRevision.value != rec.revision {
        return Conflict(rec.revision, rec.state);
      }
      if expectedState.Some? && expectedState.value != rec.state {
        return Conflict(rec.revision, rec.state);
      }
      var updated := Transition(rec, state, change, ctx);
      records := records[runId := updated];
      response := Written(updated);
    }

    method RecordPhase(runId: string, change: PhaseChange, ctx: Option<RunContext>, expectedRevision: Option<int>)
      returns (response: Response)
      requires Invariant()
      modifies this`records
      ensures Invariant()
      ensures var a := Apply(old(State()), maxRecords, Update(runId, Running, Some(change), ctx, expectedRevision, None));
              State() == a.store && response == a.response
    {
      if !AcceptableChange(change) {
        return Invalid;
      }
      response := UpdateState(runId, Running, Some(change), ctx, expectedRevision, None);
    }

    method Mark(runId: string, state: RunState, expectedRevision: Option<int>, expectedState: Option<RunState>)
      returns (response: Response)
      requires Invariant()
      modifies this`records
      ensures Invariant()
      ensures var a := Apply(old(State()), maxRecords, Update(runId, state, None, None, expectedRevision, expectedState));
              State() == a.store && response == a.response
    {
      response := UpdateState(runId, state, None, None, expectedRevision, expectedState);
    }

    method RecordCostAttribution(runId: string, cost: Cost, expectedRevision: Option<int>)
      returns (response: Response)
      requires Invariant()
      modifies this`records
      ensures Invariant()
      ensures var a := Apply(old(State()), maxRecords, Attribute(runId, cost, expectedRevision));
              State() == a.store && response == a.response
    {
      ghost var before, op := State(), Attribute(runId, cost, expectedRevision);
      ApplyValid(before, maxRecords, op);
      if runId !in records {
        return UnknownRun;
      }
      var rec := records[runId];
      if expectedRevision.Some? && expectedRevision.value != rec.revision {
        return Conflict(rec.revision, rec.state);
      }
      var updated := rec.(revision := rec.revision + 1, cost := OverlayCost(cost, rec.cost));
      records := records[runId := updated];
      response := Written(updated);
      assert State() == Apply(before, maxRecords, op).store;
    }
  }
}
