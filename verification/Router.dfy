/** The model router: bounded retry on rate limits, one repair, one fallback. */
module Router {
  import opened Records

  datatype ErrorKind = Timeout | ProviderFailure | MalformedOutput | Auth | RateLimit

  datatype Reply = Reply(error: Option<ErrorKind>, requiresRepair: bool, text: string)

  predicate RateLimited(r: Reply) {
    r.error == Some(RateLimit)
  }

  predicate Routable(r: Reply) {
    r.error.Some? && r.error.value != Auth
  }

  /** A provider answers call number `n` with `script(n)`. */
  type Script = nat -> Reply

  class Adapter {
    const script: Script
    var calls: nat

    constructor (script: Script)
      ensures this.script == script && calls == 0
    {
      this.script := script;
      calls := 0;
    }

    method Invoke() returns (r: Reply)
      modifies this
      ensures r == script(old(calls)) && calls == old(calls) + 1
    {
      r := script(calls);
      calls := calls + 1;
    }
  }

  // ---- Backoff --------------------------------------------------------------

  datatype RawPolicy = RawPolicy(maxAttempts: int, initial: real, cap: real)

  /** The policy constructor refuses anything else. */
  type Policy = p: RawPolicy | p.maxAttempts >= 1 && p.initial >= 0.0 && p.cap >= p.initial
    witness RawPolicy(3, 1.0, 30.0)

  function Min(a: real, b: real): real {
    if a <= b then a else b
  }

  function Pow2(n: nat): (r: real)
    ensures r >= 1.0
  {
    if n == 0 then 1.0 else 2.0 * Pow2(n - 1)
  }

  /** `x` doubled `n` times, and `x` taken `n` times. */
  function Doubled(x: real, n: nat): (r: real)
    ensures x >= 0.0 ==> r >= x
  {
    if n == 0 then x else 2.0 * Doubled(x, n - 1)
  }

  function Times(n: nat, x: real): real {
    if n == 0 then 0.0 else Times(n - 1, x) + x
  }

  lemma {:induction false} DoubledIsPower(x: real, n: nat)
    ensures Doubled(x, n) == x * Pow2(n)
  {
    if n > 0 {
      DoubledIsPower(x, n - 1);
      assert 2.0 * (x * Pow2(n - 1)) == x * (2.0 * Pow2(n - 1));
    }
  }

  lemma {:induction false} TimesIsProduct(n: nat, x: real)
    ensures Times(n, x) == (n as real) * x
  {
    if n > 0 {
      TimesIsProduct(n - 1, x);
      assert ((n - 1) as real + 1.0) * x == ((n - 1) as real) * x + x;
    }
  }

  /** The sleep before retry number `attempt`. */
  function Backoff(p: Policy, attempt: nat): (s: real)
    ensures 0.0 <= s <= p.cap
    ensures s == Min(p.initial * Pow2(attempt), p.cap)
  {
    DoubledIsPower(p.initial, attempt);
    Min(Doubled(p.initial, attempt), p.cap)
  }

  /** The sleeps before the first `k` retries. */
  function Backoffs(p: Policy, k: nat): (s: seq<real>)
    ensures |s| == k && forall i | 0 <= i < k :: s[i] == Backoff(p, i)
  {
    seq(k, i requires 0 <= i < k => Backoff(p, i))
  }

  function Sum(s: seq<real>): real {
    if s == [] then 0.0 else Sum(s[..|s| - 1]) + s[|s| - 1]
  }

  /** Each sleep is the one before doubled, up to the cap; so sleeps never shrink. */
  lemma BackoffDoubles(p: Policy, i: nat)
    ensures Backoff(p, i + 1) == Min(2.0 * Backoff(p, i), p.cap)
    ensures Backoff(p, i) <= Backoff(p, i + 1)
  {
  }

  lemma {:induction false} SumBounds(p: Policy, k: nat)
    ensures Sum(Backoffs(p, k)) <= Doubled(p.initial, k) - p.initial
    ensures Sum(Backoffs(p, k)) <= Times(k, p.cap)
  {
    if k > 0 {
      SumBounds(p, k - 1);
      assert Backoffs(p, k)[..k - 1] == Backoffs(p, k - 1);
    }
  }

  /** The total sleep over `k` retries is bounded by the uncapped geometric sum and by
      the cap times the number of retries. */
  lemma TotalSleepBounds(p: Policy, k: nat)
    ensures Sum(Backoffs(p, k)) <= p.initial * (Pow2(k) - 1.0)
    ensures Sum(Backoffs(p, k)) <= (k as real) * p.cap
  {
    SumBounds(p, k);
    DoubledIsPower(p.initial, k);
    TimesIsProduct(k, p.cap);
  }

  // ---- One invocation -------------------------------------------------------

  /** The number of retries: one more as long as the answer so far is rate-limited and
      attempts are left. */
  function Retries(p: Policy, script: Script, done: nat): (k: nat)
    requires done <= p.maxAttempts - 1
    ensures done <= k <= p.maxAttempts - 1
    ensures forall i | done <= i < k :: RateLimited(script(i))
    ensures k == p.maxAttempts - 1 || !RateLimited(script(k))
    decreases p.maxAttempts - done
  {
    if done == p.maxAttempts - 1 || !RateLimited(script(done)) then done
    else Retries(p, script, done + 1)
  }

  datatype RepairOutcome = NotNeeded | Repaired | Rejected

  predicate Clean(r: Reply) {
    r.error.None? && !r.requiresRepair
  }

  /** A repair: its outcome, the response it returns and the calls it made.  `reattempt` is
      nothing when there is no way to ask again. */
  function MaybeRepair(first: Reply, reattempt: Option<Reply>): (r: (RepairOutcome, Reply, nat))
    ensures r.2 <= 1 && (r.2 == 1 <==> first.error.Some? && first.requiresRepair && reattempt.Some?)
    ensures r.1 == if r.2 == 1 then reattempt.value else first
    ensures r.0 == Repaired <==> r.2 == 1 && Clean(r.1)
    ensures r.0 == NotNeeded <==> first.error.None?
  {
    if first.error.None? then (NotNeeded, first, 0)
    else if !first.requiresRepair then (Rejected, first, 0)
    else if reattempt.None? then (Rejected, first, 0)
    else if Clean(reattempt.value) then (Repaired, reattempt.value, 1)
    else (Rejected, reattempt.value, 1)
  }

  datatype Result = Answered(reply: Reply) | NoAdapter

  /** One routed call: its result, and what it cost on either provider. */
  datatype Routing = Routing(result: Result, retries: nat, primaryCalls: nat, fallbackCalls: nat)

  function From(script: Script, start: nat): Script {
    (n: nat) => script(start + n)
  }

  /** `alternate` is nothing when the fallback table names no other provider.  Otherwise it
      holds what the alternate provider, if one is registered, answers after the given
      number of calls on the primary; only a shared adapter makes that number matter. */
  function Route(p: Policy, script: Script, alternate: Option<Option<nat -> Reply>>): Routing {
    var k := Retries(p, script, 0);
    var last := script(k);
    if !Routable(last) then Routing(Answered(last), k, k + 1, 0)
    else
      var repair := if last.error.value == MalformedOutput then MaybeRepair(last, Some(script(k + 1))) else (NotNeeded, last, 0);
      var calls := k + 1 + repair.2;
      if repair.0 == Repaired then Routing(Answered(repair.1), k, calls, 0)
      else if alternate.None? then Routing(Answered(last), k, calls, 0)
      else if alternate.value.None? then Routing(NoAdapter, k, calls, 0)
      else Routing(Answered(alternate.value.value(calls)), k, calls, 1)
  }

  predicate Malformed(r: Reply) {
    r.error == Some(MalformedOutput) && r.requiresRepair
  }

  /** For every script: the primary is called at most `maxAttempts` + 1 times, and that
      often only when every attempt but the last was rate-limited and the last came back
      malformed; the fallback is called at most once, and only when the primary's last
      answer is a routable error that no repair cured; an authentication error or a success
      stops everything. */
  lemma RoutingBounds(p: Policy, script: Script, alternate: Option<Option<nat -> Reply>>)
    ensures var r := Route(p, script, alternate);
            && 1 <= r.primaryCalls <= p.maxAttempts + 1 && r.fallbackCalls <= 1
            && r.retries <= p.maxAttempts - 1
            && (r.primaryCalls == p.maxAttempts + 1 <==>
                  Malformed(script(p.maxAttempts - 1)) && forall i | 0 <= i < p.maxAttempts - 1 :: RateLimited(script(i)))
            && (forall i | 0 <= i < r.retries :: RateLimited(script(i)))
            && (r.fallbackCalls == 1 ==> Routable(script(r.retries)) && alternate.Some? && alternate.value.Some?)
            && (!Routable(script(r.retries)) ==>
                  r.result == Answered(script(r.retries)) && r.primaryCalls == r.retries + 1 && r.fallbackCalls == 0)
            && (!RateLimited(script(0)) ==> r.retries == 0)
  {
    var r := Route(p, script, alternate);
    var k := r.retries;
    if r.primaryCalls == p.maxAttempts + 1 {
      assert k == p.maxAttempts - 1;
    }
    if Malformed(script(p.maxAttempts - 1)) && forall i | 0 <= i < p.maxAttempts - 1 :: RateLimited(script(i)) {
      assert k == p.maxAttempts - 1;
    }
  }

  /** The routing that the scripts call for.  `k` retries follow rate limits only, and stop at
      the first answer that is none or at the limit; a malformed answer is asked for once
      more; and what is still a routable error then goes to the registered alternate. */
  ghost predicate CalledFor(p: Policy, script: Script, alternate: Option<Option<nat -> Reply>>, r: Routing) {
    var k := r.retries;
    var last, again := script(k), script(k + 1);
    var cured := Malformed(last) && Clean(again);
    && k <= p.maxAttempts - 1 && (forall i | 0 <= i < k :: RateLimited(script(i)))
    && (k == p.maxAttempts - 1 || !RateLimited(last))
    && r.primaryCalls == k + 1 + (if Malformed(last) then 1 else 0)
    && r.fallbackCalls <= 1
    && (r.fallbackCalls == 1 <==> Routable(last) && !cured && alternate.Some? && alternate.value.Some?)
    && (!Routable(last) ==> r.result == Answered(last))
    && (cured ==> r.result == Answered(again))
    && (Routable(last) && !cured ==>
          && (alternate.None? ==> r.result == Answered(last))
          && (alternate.Some? && alternate.value.None? ==> r.result == NoAdapter)
          && (alternate.Some? && alternate.value.Some? ==> r.result == Answered(alternate.value.value(r.primaryCalls))))
  }

  /** The router does what the scripts call for. */
  lemma RoutesAsCalledFor(p: Policy, script: Script, alternate: Option<Option<nat -> Reply>>)
    ensures CalledFor(p, script, alternate, Route(p, script, alternate))
  {
  }

  /** And they call for one routing only. */
  lemma OneRoutingIsCalledFor(p: Policy, script: Script, alternate: Option<Option<nat -> Reply>>, r: Routing, q: Routing)
    requires CalledFor(p, script, alternate, r) && CalledFor(p, script, alternate, q)
    ensures r == q
  {
    var earlier := if r.retries <= q.retries then r.retries else q.retries;
    assert !RateLimited(script(earlier)) || earlier == p.maxAttempts - 1;
  }

  class ModelRouter {
    const policy: Policy
    const primary: Adapter
    const hasAlternate: bool
    const fallback: Adapter?
    var slept: seq<real>

    /** `hasAlternate` says that the table names another provider than the primary;
        `fallback` is null when no adapter is registered for that one. */
    constructor (policy: Policy, primary: Adapter, hasAlternate: bool, fallback: Adapter?)
      ensures this.policy == policy && this.primary == primary
      ensures this.hasAlternate == hasAlternate && this.fallback == fallback && slept == []
    {
      this.policy := policy;
      this.primary := primary;
      this.hasAlternate := hasAlternate;
      this.fallback := fallback;
      slept := [];
    }

    /** Retries a rate-limited provider with growing sleeps, within the attempt limit. */
    method InvokeWithRateLimitRetry() returns (reply: Reply, ghost retries: nat)
      modifies this`slept, primary
      ensures retries == Retries(policy, From(primary.script, old(primary.calls)), 0)
      ensures reply == primary.script(old(primary.calls) + retries)
      ensures primary.calls == old(primary.calls) + retries + 1
      ensures slept == old(slept) + Backoffs(policy, retries)
    {
      ghost var script := From(primary.script, primary.calls);
      retries := 0;
      reply := primary.Invoke();
      if !RateLimited(reply) {
        assert slept + [] == slept;
        return;
      }
      var i := 0;
      while i < policy.maxAttempts - 1
        invariant 0 <= i <= policy.maxAttempts - 1
        invariant retries == i && Retries(policy, script, 0) == Retries(policy, script, i)
        invariant RateLimited(script(i)) && reply == script(i)
        invariant primary.calls == old(primary.calls) + i + 1
        invariant slept == old(slept) + Backoffs(policy, i)
      {
        slept := slept + [Backoff(policy, i)];
        reply := primary.Invoke();
        i := i + 1;
        retries := i;
        assert Backoffs(policy, i) == Backoffs(policy, i - 1) + [Backoff(policy, i - 1)];
        if !RateLimited(reply) {
          return;
        }
      }
    }

    /** What the alternate provider will answer once the primary has been called. */
    function Alternate(): Option<Option<nat -> Reply>>
      reads primary, fallback
    {
      if !hasAlternate then None
      else if fallback == null then Some(None)
      else if fallback == primary then Some(Some(From(primary.script, primary.calls)))
      else var answer := fallback.script(fallback.calls); Some(Some((_: nat) => answer))
    }

    method Invoke() returns (result: Result)
      modifies this`slept, primary, fallback
      ensures var r := Route(policy, From(primary.script, old(primary.calls)), old(Alternate()));
              && CalledFor(policy, From(primary.script, old(primary.calls)), old(Alternate()), r)
              && result == r.result
              && primary.calls == old(primary.calls) + r.primaryCalls + (if fallback == primary then r.fallbackCalls else 0)
              && (fallback != null && fallback != primary ==> fallback.calls == old(fallback.calls) + r.fallbackCalls)
              && slept == old(slept) + Backoffs(policy, r.retries)
    {
      RoutesAsCalledFor(policy, From(primary.script, primary.calls), Alternate());
      var reply, retries := InvokeWithRateLimitRetry();
      if reply.error.None? || reply.error.value == Auth {
        return Answered(reply);
      }
      if reply.error.value == MalformedOutput && reply.requiresRepair {
        var again := primary.Invoke();
        if again.error.None? && !again.requiresRepair {
          return Answered(again);
        }
      }
      if !hasAlternate {
        return Answered(reply);
      }
      if fallback == null {
        return NoAdapter;
      }
      var answer := fallback.Invoke();
      result := Answered(answer);
    }
  }
}
