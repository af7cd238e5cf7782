/** Worker leases: at most one live holder per run, kept in a file that a store
    reads once. */
module Leases {
  import opened Records

  type Time = real

  datatype Lease = Lease(
    runId: string, workerId: string, ownerToken: string, revision: int,
    acquiredAt: Time, expiresAt: Time)

  predicate Expired(l: Lease, now: Time) {
    now >= l.expiresAt
  }

  type LeaseMap = map<string, Lease>

  /** The lease file: one line per lease, or no file yet. */
  type File = Option<seq<Lease>>

  /** Reading the file keeps, for each run, its last line. */
  function LoadLines(m: LeaseMap, lines: seq<Lease>): LeaseMap
    decreases |lines|
  {
    if lines == [] then m else LoadLines(m[lines[0].runId := lines[0]], lines[1..])
  }

  function Load(f: File): LeaseMap {
    if f.None? then map[] else LoadLines(map[], f.value)
  }

  ghost predicate Keyed(m: LeaseMap) {
    forall r | r in m :: m[r].runId == r
  }

  lemma {:induction false} LoadSnoc(m: LeaseMap, lines: seq<Lease>, l: Lease)
    ensures LoadLines(m, lines + [l]) == LoadLines(m, lines)[l.runId := l]
    decreases |lines|
  {
    if lines == [] {
      assert LoadLines(m, [l]) == LoadLines(m[l.runId := l], []);
    } else {
      assert (lines + [l])[1..] == lines[1..] + [l];
      LoadSnoc(m[lines[0].runId := lines[0]], lines[1..], l);
    }
  }

  // ---- Calls on one store ---------------------------------------------------

  /** A call with the clock reading it happens at.  `fresh` is the token the store
      would generate. */
  datatype Call =
    | Acquire(run: string, worker: string, revision: int, ttl: real, offered: Option<string>, newToken: string)
    | Renew(run: string, token: string, ttl: real)
    | Release(run: string, token: string)
    | Recover

  datatype Answer =
    | Granted(lease: Lease)      // a lease was written
    | Kept(lease: Lease)         // the caller's own lease, untouched
    | Recovered(runs: set<string>)
    | Done
    | LeaseConflict
    | LeaseNotFound

  function TokenOf(offered: Option<string>, newToken: string): string {
    if offered.Some? && offered.value != "" then offered.value else newToken
  }

  /** The expired part of the map is what recovery removes. */
  function ExpiredRuns(m: LeaseMap, now: Time): set<string> {
    set r | r in m && m[r].expiresAt <= now
  }

  function Apply(m: LeaseMap, c: Call, now: Time): (LeaseMap, Answer) {
    match c
    case Acquire(run, worker, revision, ttl, offered, newToken) =>
      if run in m && Some(m[run].ownerToken) == offered then (m, Kept(m[run]))
      else if run in m && !Expired(m[run], now) then (m, LeaseConflict)
      else
        var owner := TokenOf(offered, newToken);
        var acquiredAt := if run in m && m[run].ownerToken == owner then m[run].acquiredAt else now;
        var l := Lease(run, worker, owner, revision, acquiredAt, now + ttl);
        (m[run := l], Granted(l))
    case Renew(run, token, ttl) =>
      if run !in m then (m, LeaseNotFound)
      else if m[run].ownerToken != token then (m, LeaseConflict)
      else
        var l := m[run].(expiresAt := now + ttl);
        (m[run := l], Granted(l))
    case Release(run, token) =>
      if run !in m then (m, Done)
      else if m[run].ownerToken != token then (m, LeaseConflict)
      else (m - {run}, Done)
    case Recover =>
      (m - ExpiredRuns(m, now), Recovered(ExpiredRuns(m, now)))
  }

  lemma ApplyKeyed(m: LeaseMap, c: Call, now: Time)
    requires Keyed(m)
    ensures Keyed(Apply(m, c, now).0)
  {
  }

  // ---- Exclusion ------------------------------------------------------------

  /** One call of a trace and its clock reading. */
  datatype Timed = Timed(call: Call, now: Time)

  predicate Monotone(trace: seq<Timed>) {
    forall i, j | 0 <= i < j < |trace| :: trace[i].now <= trace[j].now
  }

  /** The lease map after a trace. */
  function After(trace: seq<Timed>): LeaseMap
    decreases |trace|
  {
    if trace == [] then map[]
    else
      var last := trace[|trace| - 1];
      Apply(After(trace[..|trace| - 1]), last.call, last.now).0
  }

  function AnswerAt(trace: seq<Timed>, i: nat): Answer
    requires i < |trace|
  {
    Apply(After(trace[..i]), trace[i].call, trace[i].now).1
  }

  predicate GrantsTo(a: Answer, run: string, token: string) {
    a.Granted? && a.lease.runId == run && a.lease.ownerToken == token
  }

  /** When the latest lease a token was granted on a run expires; nothing if it was
      never granted one or has released it since.  This looks at answers only. */
  function LatestExpiry(trace: seq<Timed>, run: string, token: string): Option<Time>
    decreases |trace|
  {
    if trace == [] then None
    else
      var n := |trace| - 1;
      var a := AnswerAt(trace, n);
      if GrantsTo(a, run, token) then Some(a.lease.expiresAt)
      else if trace[n].call == Release(run, token) && a == Done then None
      else LatestExpiry(trace[..n], run, token)
  }

  /** A token whose latest lease has not lapsed is the one in the map. */
  ghost predicate HoldersAreStored(trace: seq<Timed>, now: Time) {
    && Keyed(After(trace))
    && forall run, token :: LatestExpiry(trace, run, token).Some? && LatestExpiry(trace, run, token).value > now ==>
         run in After(trace) && After(trace)[run].ownerToken == token
         && After(trace)[run].expiresAt == LatestExpiry(trace, run, token).value
  }

  lemma StepKeepsHolders(trace: seq<Timed>, step: Timed)
    requires HoldersAreStored(trace, step.now)
    ensures HoldersAreStored(trace + [step], step.now)
  {
    var whole := trace + [step];
    assert whole[..|trace|] == trace;
    var m, t := After(trace), After(whole);
    assert t == Apply(m, step.call, step.now).0 && AnswerAt(whole, |trace|) == Apply(m, step.call, step.now).1;
    ApplyKeyed(m, step.call, step.now);
    forall run, token | LatestExpiry(whole, run, token).Some? && LatestExpiry(whole, run, token).value > step.now
      ensures run in t && t[run].ownerToken == token && t[run].expiresAt == LatestExpiry(whole, run, token).value
    {
      assert LatestExpiry(trace, run, token).Some? && LatestExpiry(trace, run, token).value > step.now ==>
        run in m && m[run].ownerToken == token && m[run].expiresAt == LatestExpiry(trace, run, token).value;
    }
  }

  lemma LaterClock(trace: seq<Timed>, now: Time, later: Time)
    requires HoldersAreStored(trace, now) && now <= later
    ensures HoldersAreStored(trace, later)
  {
  }

  lemma {:induction false} HoldersStayStored(trace: seq<Timed>, now: Time)
    requires Monotone(trace) && (trace != [] ==> trace[|trace| - 1].now <= now)
    ensures HoldersAreStored(trace, now)
    decreases |trace|
  {
    if trace != [] {
      var n := |trace| - 1;
      var step := trace[n];
      HoldersStayStored(trace[..n], step.now);
      StepKeepsHolders(trace[..n], step);
      assert trace[..n] + [step] == trace;
      LaterClock(trace, step.now, now);
    }
  }

  /** A call answered with a lease, new or untouched. */
  predicate SucceedsFor(a: Answer, run: string, token: string) {
    (a.Granted? || a.Kept?) && a.lease.runId == run && a.lease.ownerToken == token
  }

  /** Leases exclude.  Over any interleaving of calls on one store with a clock that
      does not run backwards: when a call is answered with a lease on a run for one token,
      every other token's latest lease on that run has expired or was released. */
  lemma LeasesExclude(trace: seq<Timed>, i: nat, run: string, token: string, other: string)
    requires Monotone(trace) && i < |trace|
    requires SucceedsFor(AnswerAt(trace, i), run, token) && other != token
    ensures var e := LatestExpiry(trace[..i], run, other);
            e.None? || e.value <= trace[i].now
  {
    HoldersStayStored(trace[..i], trace[i].now);
  }

  /** An owner that acquires again gets its stored lease back untouched, lapsed or not: it
      holds the run afterwards exactly if that lease has not lapsed. */
  lemma KeptIsNotRenewed(m: LeaseMap, run: string, worker: string, revision: int, ttl: real, newToken: string, now: Time)
    requires run in m
    ensures Apply(m, Acquire(run, worker, revision, ttl, Some(m[run].ownerToken), newToken), now) == (m, Kept(m[run]))
  {
  }

  /** So an acquire can succeed with a lease that has already lapsed. */
  lemma KeptMayHaveLapsed(run: string, token: string, ttl: real, now: Time, later: Time)
    requires token != "" && now <= later
    ensures var acquire := Acquire(run, "w", 0, ttl, Some(token), "");
            var trace := [Timed(acquire, now), Timed(acquire, later)];
            && Monotone(trace) && AnswerAt(trace, 1).Kept?
            && (Expired(AnswerAt(trace, 1).lease, later) <==> later >= now + ttl)
  {
    var acquire := Acquire(run, "w", 0, ttl, Some(token), "");
    var trace := [Timed(acquire, now), Timed(acquire, later)];
    assert trace[..1] == [trace[0]] && trace[..1][..0] == [];
    assert After(trace[..1]) == Apply(map[], acquire, now).0;
  }

  /** At any moment at most one token holds an unexpired, unreleased lease on a run. */
  lemma OneHolderAtATime(trace: seq<Timed>, now: Time, run: string, a: string, b: string)
    requires Monotone(trace) && (trace != [] ==> trace[|trace| - 1].now <= now)
    requires LatestExpiry(trace, run, a).Some? && LatestExpiry(trace, run, a).value > now
    requires LatestExpiry(trace, run, b).Some? && LatestExpiry(trace, run, b).value > now
    ensures a == b
  {
    HoldersStayStored(trace, now);
  }

  // ---- The answers, from the answers before -----------------------------------

  /** The lease that holds a run after a trace, told by the answers: the last one granted,
      unless it was released or recovered since. */
  function HolderAt(trace: seq<Timed>, run: string): Option<Lease>
    decreases |trace|
  {
    if trace == [] then None
    else
      var n := |trace| - 1;
      var a := AnswerAt(trace, n);
      if a.Granted? && a.lease.runId == run then Some(a.lease)
      else if trace[n].call.Release? && trace[n].call.run == run && a == Done then None
      else if a.Recovered? && run in a.runs then None
      else HolderAt(trace[..n], run)
  }

  function Stored(m: LeaseMap, run: string): Option<Lease> {
    if run in m then Some(m[run]) else None
  }

  lemma StepStores(m: LeaseMap, c: Call, now: Time, run: string)
    requires Keyed(m)
    ensures var (t, a) := Apply(m, c, now);
            Stored(t, run) ==
              if a.Granted? && a.lease.runId == run then Some(a.lease)
              else if c.Release? && c.run == run && a == Done then None
              else if a.Recovered? && run in a.runs then None
              else Stored(m, run)
  {
  }

  /** The store holds exactly what its answers say. */
  lemma {:induction false} StoreHoldsWhatItAnswered(trace: seq<Timed>, run: string)
    ensures Keyed(After(trace)) && Stored(After(trace), run) == HolderAt(trace, run)
    decreases |trace|
  {
    if trace != [] {
      var n := |trace| - 1;
      StoreHoldsWhatItAnswered(trace[..n], run);
      ApplyKeyed(After(trace[..n]), trace[n].call, trace[n].now);
      StepStores(After(trace[..n]), trace[n].call, trace[n].now, run);
    }
  }

  /** The answer to a call, given who holds which run and the clock. */
  ghost predicate AnswersHolders(c: Call, now: Time, a: Answer, holder: string -> Option<Lease>) {
    match c
    case Acquire(run, worker, revision, ttl, offered, newToken) =>
      var h := holder(run);
      if h.Some? && Some(h.value.ownerToken) == offered then a == Kept(h.value)
      else if h.Some? && h.value.expiresAt > now then a == LeaseConflict
      else
        && a.Granted? && a.lease.runId == run && a.lease.workerId == worker && a.lease.revision == revision
        && a.lease.expiresAt == now + ttl
        && (offered.Some? && offered.value != "" ==> a.lease.ownerToken == offered.value)
        && (offered.None? || offered.value == "" ==> a.lease.ownerToken == newToken)
        && (h.None? || h.value.ownerToken != a.lease.ownerToken ==> a.lease.acquiredAt == now)
        && (h.Some? && h.value.ownerToken == a.lease.ownerToken ==> a.lease.acquiredAt == h.value.acquiredAt)
    case Renew(run, token, ttl) =>
      var h := holder(run);
      if h.None? then a == LeaseNotFound
      else if h.value.ownerToken != token then a == LeaseConflict
      else
        && a.Granted? && a.lease.expiresAt == now + ttl
        && a.lease.(expiresAt := h.value.expiresAt) == h.value
    case Release(run, token) =>
      a == if holder(run).Some? && holder(run).value.ownerToken != token then LeaseConflict else Done
    case Recover =>
      a.Recovered? && forall run :: run in a.runs <==> holder(run).Some? && holder(run).value.expiresAt <= now
  }

  /** Every answer of a store is decided by its earlier answers and the clock. */
  lemma AnswersFollowFromAnswers(trace: seq<Timed>, i: nat)
    requires i < |trace|
    ensures AnswersHolders(trace[i].call, trace[i].now, AnswerAt(trace, i), run => HolderAt(trace[..i], run))
  {
    forall run ensures Stored(After(trace[..i]), run) == HolderAt(trace[..i], run) {
      StoreHoldsWhatItAnswered(trace[..i], run);
    }
    StoreHoldsWhatItAnswered(trace[..i], "");
  }

  /** A stored lease is the latest one its token was granted and has not released. */
  lemma {:induction false} StoredIsLatest(trace: seq<Timed>, run: string)
    requires run in After(trace)
    ensures LatestExpiry(trace, run, After(trace)[run].ownerToken) == Some(After(trace)[run].expiresAt)
    decreases |trace|
  {
    if trace != [] {
      var n := |trace| - 1;
      var m := After(trace[..n]);
      StoreHoldsWhatItAnswered(trace[..n], run);
      StepStores(m, trace[n].call, trace[n].now, run);
      if run in m {
        StoredIsLatest(trace[..n], run);
      }
    }
  }

  ghost predicate HeldByAnother(trace: seq<Timed>, run: string, offered: Option<string>, now: Time) {
    exists token :: Some(token) != offered
      && LatestExpiry(trace, run, token).Some? && LatestExpiry(trace, run, token).value > now
  }

  /** An acquire is refused exactly when some other token's latest lease on the run has
      neither lapsed nor been released. */
  lemma RefusedIffHeldByAnother(trace: seq<Timed>, i: nat)
    requires Monotone(trace) && i < |trace| && trace[i].call.Acquire?
    ensures AnswerAt(trace, i) == LeaseConflict <==>
              HeldByAnother(trace[..i], trace[i].call.run, trace[i].call.offered, trace[i].now)
  {
    var run, offered, now := trace[i].call.run, trace[i].call.offered, trace[i].now;
    HoldersStayStored(trace[..i], now);
    if AnswerAt(trace, i) == LeaseConflict {
      StoredIsLatest(trace[..i], run);
      assert Some(After(trace[..i])[run].ownerToken) != offered;
    }
  }

  // ---- Stores on a file -----------------------------------------------------

  lemma {:induction false} LoadKeyed(m: LeaseMap, lines: seq<Lease>)
    requires Keyed(m)
    ensures Keyed(LoadLines(m, lines))
    decreases |lines|
  {
    if lines != [] {
      LoadKeyed(m[lines[0].runId := lines[0]], lines[1..]);
    }
  }

  class LeaseFile {
    var content: File

    constructor (content: File)
      ensures this.content == content
    {
      this.content := content;
    }
  }

  class LeaseStore {
    const file: LeaseFile
    var leases: LeaseMap
    var loaded: bool

    /** The leases this store works with: its own once loaded, the file's before that. */
    ghost function View(): LeaseMap
      reads this, file
    {
      if loaded then leases else Load(file.content)
    }

    ghost predicate Valid()
      reads this, file
    {
      Keyed(View()) && (!loaded ==> leases == map[])
    }

    /** The file holds what the store works with; true while no other store writes it. */
    ghost predicate Synced()
      reads this, file
    {
      Load(file.content) == View()
    }

    /** A store opened on a file sees the leases flushed there. */
    constructor (file: LeaseFile)
      ensures this.file == file && file.content == old(file.content) && !loaded
      ensures Valid() && Synced() && View() == Load(file.content)
    {
      this.file := file;
      leases := map[];
      loaded := false;
      new;
      if file.content.Some? { LoadKeyed(map[], file.content.value); }
    }

    method EnsureLoaded()
      requires Valid()
      modifies this
      ensures Valid() && loaded && View() == old(View())
    {
      if loaded {
        return;
      }
      if file.content.Some? {
        var lines := file.content.value;
        var i := 0;
        while i < |lines|
          invariant i <= |lines|
          invariant LoadLines(leases, lines[i..]) == old(View())
        {
          leases := leases[lines[i].runId := lines[i]];
          i := i + 1;
        }
      }
      loaded := true;
    }

    /** Rewrites the whole file, one line per lease in some order. */
    method Flush()
      requires loaded && Keyed(leases)
      modifies file
      ensures Load(file.content) == leases
    {
      var lines: seq<Lease> := [];
      var rest := leases.Keys;
      while rest != {}
        invariant rest <= leases.Keys
        invariant LoadLines(map[], lines) == map r | r in leases && r !in rest :: leases[r]
        decreases rest
      {
        var r :| r in rest;
        LoadSnoc(map[], lines, leases[r]);
        lines := lines + [leases[r]];
        rest := rest - {r};
      }
      file.content := Some(lines);
    }

    method AcquireLease(run: string, worker: string, revision: int, ttl: real, offered: Option<string>,
                        newToken: string, now: Time) returns (answer: Answer)
      requires Valid()
      modifies this, file
      ensures Valid() && loaded && (old(Synced()) ==> Synced())
      ensures if answer.Granted? then Load(file.content) == View() else file.content == old(file.content)
      ensures (View(), answer) == Apply(old(View()), Acquire(run, worker, revision, ttl, offered, newToken), now)
    {
      EnsureLoaded();
      if run in leases {
        var existing := leases[run];
        if offered.Some? && existing.ownerToken == offered.value {
          return Kept(existing);
        }
        if !Expired(existing, now) {
          return LeaseConflict;
        }
      }
      var token := if offered.Some? && offered.value != "" then offered.value else newToken;
      var acquiredAt := if run in leases && leases[run].ownerToken == token then leases[run].acquiredAt else now;
      var l := Lease(run, worker, token, revision, acquiredAt, now + ttl);
      leases := leases[run := l];
      Flush();
      answer := Granted(l);
    }

    method RenewLease(run: string, token: string, ttl: real, now: Time) returns (answer: Answer)
      requires Valid()
      modifies this, file
      ensures Valid() && loaded && (old(Synced()) ==> Synced())
      ensures (View(), answer) == Apply(old(View()), Renew(run, token, ttl), now)
    {
      EnsureLoaded();
      if run !in leases {
        return LeaseNotFound;
      }
      var existing := leases[run];
      if existing.ownerToken != token {
        return LeaseConflict;
      }
      var renewed := existing.(expiresAt := now + ttl);
      leases := leases[run := renewed];
      Flush();
      answer := Granted(renewed);
    }

    method ReleaseLease(run: string, token: string, now: Time) returns (answer: Answer)
      requires Valid()
      modifies this, file
      ensures Valid() && loaded && (old(Synced()) ==> Synced())
      ensures (View(), answer) == Apply(old(View()), Release(run, token), now)
    {
      EnsureLoaded();
      if run !in leases {
        return Done;
      }
      if leases[run].ownerToken != token {
        return LeaseConflict;
      }
      leases := leases - {run};
      Flush();
      answer := Done;
    }

    /** Removes every lapsed lease, one by one, and flushes once if there was any. */
    method RecoverExpired(now: Time) returns (answer: Answer)
      requires Valid()
      modifies this, file
      ensures Valid() && loaded && (old(Synced()) ==> Synced())
      ensures (View(), answer) == Apply(old(View()), Recover, now)
    {
      EnsureLoaded();
      var all := leases;
      var expired: set<string> := {};
      var rest := all.Keys;
      while rest != {}
        invariant rest <= all.Keys
        invariant expired == set r | r in all && r !in rest && all[r].expiresAt <= now
        invariant leases == all - expired
        invariant loaded && file.content == old(file.content)
        decreases rest
      {
        var r :| r in rest;
        if all[r].expiresAt <= now {
          expired := expired + {r};
          leases := leases - {r};
        }
        rest := rest - {r};
      }
      assert expired == ExpiredRuns(all, now);
      if expired != {} {
        Flush();
      } else {
        assert leases == all;
      }
      answer := Recovered(expired);
    }
  }

  /** When exclusion fails across stores.  Store `one` is up to date with the file and holds
      a live lease of another token on the run.  Another store on the same file grants the run
      all the same if and only if it has read the file before and its own copy holds no
      lease on the run, or a lapsed one of another token; and it answers with a lease kept
      from its copy if and only if that is the caller's.  A grant overwrites the file
      with that copy, so the leases missing from the copy are lost. */
  method AcquireFromAnotherStore(one: LeaseStore, two: LeaseStore, run: string, token: string, ttl: real, now: Time)
    returns (answer: Answer)
    requires one.file == two.file && one != two && one.Valid() && two.Valid() && one.Synced() && token != ""
    requires run in one.View() && !Expired(one.View()[run], now) && one.View()[run].ownerToken != token
    modifies two, two.file
    ensures answer.Granted? <==>
              old(two.loaded) &&
              (run !in old(two.leases) ||
               (old(two.leases)[run].ownerToken != token && Expired(old(two.leases)[run], now)))
    ensures answer.Kept? <==>
              old(two.loaded) && run in old(two.leases) && old(two.leases)[run].ownerToken == token
    ensures !answer.Granted? ==> two.file.content == old(two.file.content)
    ensures answer.Granted? ==>
              && GrantsTo(answer, run, token)
              && Load(two.file.content) == old(two.leases)[run := answer.lease]
              && (forall q | q in old(one.View()) && q != run && q !in old(two.leases) :: q !in Load(two.file.content))
  {
    answer := two.AcquireLease(run, "w2", 0, ttl, Some(token), "", now);
  }

  /** A store that flushes erases whatever another store wrote since it read the file: the
      other store is then up to date only if both hold the same leases. */
  method FlushOverAnotherStore(one: LeaseStore, two: LeaseStore)
    requires one.file == two.file && one != two && one.Valid() && two.Valid() && one.loaded && two.loaded
    modifies two.file
    ensures Load(two.file.content) == two.leases && one.leases == old(one.leases)
    ensures one.Synced() <==> one.leases == two.leases
  {
    two.Flush();
  }

  /** Two stores on one file.  If the second has already read the file when the first
      acquires, both are granted the run and both leases are live; if it reads the file
      only afterwards, it is refused. */
  method TwoStoresOnOneFile(run: string, a: string, b: string, ttl: real, now: Time, readEarly: bool)
    returns (first: Answer, second: Answer)
    requires a != "" && b != "" && a != b && ttl > 0.0
    ensures first.Granted? && first.lease.runId == run && first.lease.ownerToken == a
    ensures !Expired(first.lease, now)
    ensures if readEarly then GrantsTo(second, run, b) && !Expired(second.lease, now) else second == LeaseConflict
  {
    var file := new LeaseFile(None);
    var one := new LeaseStore(file);
    var two := new LeaseStore(file);
    if readEarly {
      two.EnsureLoaded();
    }
    first := one.AcquireLease(run, "w1", 0, ttl, Some(a), "", now);
    second := two.AcquireLease(run, "w2", 0, ttl, Some(b), "", now);
  }
}
