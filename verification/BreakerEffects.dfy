/** What observations, time and lease requests make of a breaker: the transitions that must
    happen, said in terms of the observation and the history. */
module BreakerEffects {
  import opened Common
  import opened Cooldown
  import opened BreakerModel
  import opened BreakerReplay
  import opened BreakerEpisodes
  import opened BreakerTable

  // ----- Which breaker an observation concerns -----

  predicate IsOutage(o: Observation) {
    o.kind in {RateLimited, QuotaExhausted, AuthFailure, ModelUnavailable, ProviderOutage}
  }

  predicate IsTransient(o: Observation) {
    o.kind in {MalformedResponse, TransportFailure, ProbeFailure, LaunchFailure}
  }

  /** A failure is filed under one kind of breaker, and only the kind's own part of its scope
      counts. Nothing else is filed. */
  lemma FiledUnder(k: Key, o: Observation)
    ensures (exists j :: Feeds(j, o)) <==> IsOutage(o) || IsTransient(o)
    ensures Feeds(k, o) <==>
      && (k.kind == RateLimit <==> o.kind == RateLimited) && (k.kind == Quota <==> o.kind == QuotaExhausted)
      && (k.kind == Auth <==> o.kind == AuthFailure) && (k.kind == Model <==> o.kind == ModelUnavailable)
      && (k.kind == Health <==> o.kind in {ProviderOutage, MalformedResponse})
      && (k.kind == Transport <==> o.kind in {TransportFailure, ProbeFailure, LaunchFailure})
      && k.scope.project == o.scope.project && k.scope.adapter == o.scope.adapter
      && k.scope.installation == o.scope.installation
      && k.scope.account == (if k.kind == Health then "" else o.scope.account)
      && k.scope.model == (if k.kind == Health || k.kind == Auth then "" else o.scope.model)
      && k.scope.canonical == (if k.kind == Health || k.kind == Auth then "" else o.scope.canonical)
  {
    if Route(o).Some? {
      assert Feeds(RouteKey(o), o);
    }
  }

  lemma EventOf(k: Key, o: Observation)
    requires Feeds(k, o)
    ensures Route(o).value.1 == if IsOutage(o) then Outage else Transient
  {}

  /** A success concerns the breakers whose adapter, installation, account and model it shares,
      where both name one. */
  lemma HealsIff(k: Key, o: Observation)
    ensures Heals(k, o) <==>
      && o.kind in {ProbeSuccess, LaunchSuccess}
      && (k.scope.adapter == "" || o.scope.adapter == "" || k.scope.adapter == o.scope.adapter)
      && (k.scope.installation == "" || o.scope.installation == "" || k.scope.installation == o.scope.installation)
      && (k.scope.account == "" || o.scope.account == "" || k.scope.account == o.scope.account)
      && (k.scope.model == "" || o.scope.model == "" || k.scope.model == o.scope.model)
  {}

  /** Exactly what is not later than the last applied observation is skipped. */
  lemma SeenIff(p: Policy, b: Breaker, e: Observation, event: Event, now: Time, o: Observation)
    requires !Seen(b, e)
    ensures Seen(ApplyEvent(p, b, e, event, now), o) <==> o.stamp < e.stamp || (o.stamp == e.stamp && o.id <= e.id)
  {}

  lemma FreshSeesNothing(k: Key, reason: string, o: Observation)
    ensures !Seen(Fresh(k, reason), o)
  {}

  // ----- Failures open -----

  function Instant(o: Observation, now: Time): Time {
    if o.at.Some? then o.at.value else now
  }

  function LaterOf(known: Option<Time>, t: Time): Option<Time> {
    Some(if known.Some? && known.value > t then known.value else t)
  }

  lemma OpensIff(p: Policy, b: Breaker, o: Observation, event: Event, now: Time)
    requires event != Success && !Seen(b, o)
    ensures var c := ApplyEvent(p, b, o, event, now);
      && (c.state == Open <==> event == Outage || b.state != Closed || b.failures + 1 >= p.threshold)
      && (c.state != Open ==> c == b.(failures := b.failures + 1, successes := 0, reason := c.reason, version := b.version + 1,
                                      lastStamp := Some(o.stamp), lastId := Some(o.id)))
      && c.failures == b.failures + 1 && c.successes == 0
      && c.reason == (if o.reason == "" then "unknown-telemetry" else o.reason)
  {}

  /** The breaker opens for the failure, and was not just open before. */
  predicate OpensFor(p: Policy, b: Breaker, event: Event) {
    event == Outage || b.state == HalfOpen || b.failures + 1 >= p.threshold
  }

  /** How long: until the later of what was known and what the provider said, or, if it said
      nothing, the back-off; and the half-open counters and lease are cleared. */
  lemma OpensUntil(p: Policy, b: Breaker, o: Observation, event: Event, now: Time)
    requires event != Success && !Seen(b, o) && OpensFor(p, b, event)
    ensures var c := ApplyEvent(p, b, o, event, now);
      && (o.retry.RetryAt? ==> c.openUntil == LaterOf(b.openUntil, o.retry.at))
      && (o.retry.RetryIn? ==> c.openUntil == LaterOf(b.openUntil, Instant(o, now) + o.retry.seconds * SECOND))
      && (o.retry.NoRetry? && o.hint.Until? ==> c.openUntil == LaterOf(b.openUntil, o.hint.until))
      && (o.retry.NoRetry? && o.hint.Unreadable? ==> c.openUntil == LaterOf(b.openUntil, Instant(o, now)))
      && c.openedAt == (if b.state == Open && b.openedAt.Some? then b.openedAt else Some(Instant(o, now)))
      && c.probeCount == 0 && c.probeBudget == p.probeBudget && c.leaseOwner == "" && c.leaseUntil == None
      && c.leaseGeneration == b.leaseGeneration
  {}

  /** The back-off after a failure, with the jitter that the digest gives. */
  function WithJitter(p: Policy, k: Key, o: Observation, backoff: int): int {
    if p.jitter <= 0 then backoff
    else Min(backoff + HexValue(p.hex(k, o.id, o.stamp)[..16]) % Min(p.jitter, TWO_56), p.max)
  }

  lemma BackoffWithJitter(p: Policy, b: Breaker, o: Observation)
    requires PolicyOk(p) && p.max < TWO_62
    ensures CooldownLength(p, b, o) == WithJitter(p, b.key, o, Backoff(p.base, p.max, b.failures))
    ensures p.base <= CooldownLength(p, b, o) <= p.max
  {
    DoublingIsBackoff(p.base, p.max, b.failures);
    if p.jitter > 0 {
      NoWrap(Doubling(p.base, p.max, 1, b.failures) + Jitter(p, b, o));
    }
  }

  lemma OpensForBackoff(p: Policy, b: Breaker, o: Observation, event: Event, now: Time)
    requires PolicyOk(p) && p.max < TWO_62 && event != Success && !Seen(b, o) && OpensFor(p, b, event)
    requires o.retry.NoRetry? && o.hint.NoHint?
    ensures var c, wait := ApplyEvent(p, b, o, event, now), WithJitter(p, b.key, o, Backoff(p.base, p.max, b.failures + 1));
      p.base <= wait <= p.max && c.openUntil == LaterOf(b.openUntil, Instant(o, now) + wait)
  {
    var failed := b.(failures := b.failures + 1, successes := 0);
    BackoffWithJitter(p, failed, o);
    BackoffWithJitter(p, failed.(reason := if o.reason == "" then "unknown-telemetry" else o.reason), o);
  }

  /** What is filled in for a policy that does not say, or says nothing sensible. */
  lemma NormalizeMeans(p: Policy)
    ensures var r := NormalizePolicy(p);
      && r.threshold == (if p.threshold > 0 then p.threshold else 3)
      && r.base == (if p.base > 0 then p.base else 300 * SECOND)
      && r.max == (var max := if p.max > 0 then p.max else 3600 * SECOND; if max < r.base then r.base else max)
      && r.probeBudget == (if p.probeBudget > 0 then p.probeBudget else 1)
      && r.required == (if p.required > 0 then p.required else 1)
      && r.leaseDuration == (if p.leaseDuration > 0 then p.leaseDuration else 120 * SECOND)
      && r.jitter == p.jitter && r.hex == p.hex
  {}

  // ----- Failures since the last success -----

  /** The failures applied since the last applied success, and those counted at the start if
      none was applied. */
  function SinceSuccess(p: Policy, b: Breaker, acts: seq<Act>): nat
    decreases |acts|
  {
    if acts == [] then b.failures
    else
      var count, a := SinceSuccess(p, b, acts[..|acts| - 1]), acts[|acts| - 1];
      if !IsApplied(Run(p, b, acts[..|acts| - 1]), a) then count
      else if a.event == Success then 0
      else count + 1
  }

  lemma OneAct(p: Policy, b: Breaker, a: Act)
    requires Do(p, b, a).state == Closed
    ensures b.state == Closed || IsSuccessAct(b, a)
    ensures Do(p, b, a).failures == if !IsApplied(b, a) then b.failures else if a.event == Success then 0 else b.failures + 1
  {}

  /** A closed breaker counts exactly those. */
  lemma {:induction false} ClosedCounts(p: Policy, b: Breaker, acts: seq<Act>)
    ensures Run(p, b, acts).state == Closed ==> Run(p, b, acts).failures == SinceSuccess(p, b, acts)
    decreases |acts|
  {
    if acts != [] && Run(p, b, acts).state == Closed {
      ClosedCounts(p, b, acts[..|acts| - 1]);
      OneAct(p, Run(p, b, acts[..|acts| - 1]), acts[|acts| - 1]);
    }
  }

  /** The failures of the breaker under `k` since its last success, from what was done to it. */
  function FailuresUnder(p: Policy, m: Table, ops: seq<Op>, k: Key): nat {
    var acts := Acts(k, k in m, ops);
    SinceSuccess(p, Start(m, k, acts), acts)
  }

  /** After any sequence of derivations and lease requests: folding in a failure that its breaker
      has not seen leaves the breaker open if and only if the failure is an outage, the breaker
      was open or half-open, or the failures applied since its last success reach the threshold. */
  lemma FailureOpensIff(p: Policy, m: Table, ops: seq<Op>, o: Observation, now: Time, k: Key)
    requires KeysOk(m) && Feeds(k, o)
    requires k in Stored(p, m, ops) ==> !Seen(Stored(p, m, ops)[k], o)
    ensures var t := Stored(p, m, ops);
      var n := FoldOne(p, t, o, now);
      && k in n
      && (n[k].state == Open <==> IsOutage(o) || (k in t && t[k].state != Closed)
                                  || (if k in t then FailuresUnder(p, m, ops, k) else 0) + 1 >= p.threshold)
      && (n[k].state == Open || n[k].state == Closed)
  {
    var t := Stored(p, m, ops);
    StoredIsRun(p, m, ops, k);
    EventOf(k, o);
    FoldOneOnKey(p, t, o, now, k);
    if k in t {
      ClosedCounts(p, Start(m, k, Acts(k, k in m, ops)), Acts(k, k in m, ops));
      OpensIff(p, t[k], o, Route(o).value.1, now);
    } else {
      OpensIff(p, Fresh(k, o.reason), o, Route(o).value.1, now);
    }
  }

  // ----- Time and successes close -----

  /** An open breaker is half-open after a derivation exactly if its time has come (and nothing
      was observed); its counters start anew. */
  lemma TimeHalfOpens(p: Policy, m: Table, now: Time, k: Key)
    requires k in m
    ensures var c := Derive(p, m, [], now)[k];
      && (c.state == HalfOpen <==> m[k].state == HalfOpen
                                   || (m[k].state == Open && m[k].openUntil.Some? && m[k].openUntil.value <= now))
      && (c.state != m[k].state ==> c.successes == 0 && c.probeCount == 0 && c.probeBudget == p.probeBudget
                                    && c.leaseOwner == "" && c.leaseUntil == None && c.failures == m[k].failures
                                    && c.reason == "cooldown-elapsed")
      && (c.state == m[k].state ==> c == m[k])
  {}

  /** What a success does: it resets a closed breaker's failures, is counted by a half-open one
      and closes it at the required number, and does nothing to an open one. */
  lemma SuccessDoes(p: Policy, b: Breaker, o: Observation, now: Time)
    requires !Seen(b, o)
    ensures var c := ApplyEvent(p, b, o, Success, now);
      && (b.state == Closed ==> c.state == Closed && c.failures == 0 && c.successes == b.successes + 1)
      && (b.state != Open ==> c.reason == "recovery-succeeded")
      && (b.state == Open ==> c == b.(version := b.version + 1, lastStamp := Some(o.stamp), lastId := Some(o.id)))
      && (b.state == HalfOpen ==> c.state == (if b.successes + 1 >= p.required then Closed else HalfOpen)
                                  && c.successes == b.successes + 1)
      && (b.state == HalfOpen && c.state == Closed ==> c.failures == 0 && c.openUntil == None && c.openedAt == None
                                                       && c.probeCount == 0 && c.leaseOwner == "" && c.leaseUntil == None)
      && (b.state == HalfOpen && c.state == HalfOpen ==> c.failures == b.failures && c.openUntil == b.openUntil
                                                         && c.leaseOwner == b.leaseOwner && c.leaseUntil == b.leaseUntil
                                                         && c.probeCount == b.probeCount && c.probeBudget == b.probeBudget)
  {}

  /** Applied successes close a half-open breaker exactly when there are enough of them. */
  lemma {:induction false} SuccessesClose(p: Policy, b: Breaker, acts: seq<Act>)
    requires b.state == HalfOpen && b.successes < p.required
    requires forall i :: 0 <= i < |acts| ==> IsSuccessAct(At(p, b, acts, i), acts[i])
    ensures Run(p, b, acts).state == if b.successes + |acts| >= p.required then Closed else HalfOpen
    ensures Run(p, b, acts).successes == b.successes + |acts|
    decreases |acts|
  {
    if acts != [] {
      var n := |acts| - 1;
      forall i | 0 <= i < n ensures IsSuccessAct(At(p, b, acts[..n], i), acts[..n][i]) {
        AtPrefix(p, b, acts, n, i);
        assert IsSuccessAct(At(p, b, acts, i), acts[i]);
      }
      SuccessesClose(p, b, acts[..n]);
      assert IsSuccessAct(At(p, b, acts, n), acts[n]);
      SuccessDoes(p, Run(p, b, acts[..n]), acts[n].o, acts[n].now);
    }
  }

  // ----- Probe leases -----

  /** The lease is granted exactly if the breaker is half-open or its time has come, the budget
      is not used up, and no other owner holds an unexpired lease. */
  lemma LeaseGrantedIff(p: Policy, b: Breaker, owner: string, now: Time)
    requires PolicyOk(p)
    ensures LeaseAnswerOf(p, b, owner, now) == Acquired <==>
      || (b.state == Open && b.openUntil.Some? && b.openUntil.value <= now)
      || (b.state == HalfOpen && b.probeCount < (if b.probeBudget <= 0 then p.probeBudget else b.probeBudget)
          && (b.leaseOwner == "" || b.leaseOwner == (if Blank(owner) then "anonymous-probe" else Trim(owner))
              || b.leaseUntil.None? || b.leaseUntil.value <= now))
    ensures LeaseAnswerOf(p, b, owner, now) == NotHalfOpen <==>
      b.state == Closed || (b.state == Open && (b.openUntil.None? || now < b.openUntil.value))
    ensures LeaseAnswerOf(p, b, owner, now) != NoBreaker
  {}

  /** What is recorded with a grant. */
  lemma LeaseRecords(p: Policy, b: Breaker, owner: string, now: Time)
    requires LeaseAnswerOf(p, b, owner, now) == Acquired
    ensures var c := AcquireStep(p, b, owner, now);
      && c.leaseOwner == (if Blank(owner) then "anonymous-probe" else Trim(owner))
      && c.leaseUntil == Some(now + p.leaseDuration) && c.leaseGeneration == b.leaseGeneration + 1
      && c.state == HalfOpen && c.failures == b.failures && c.openUntil == b.openUntil
      && c.probeCount == 1 + (if b.state == HalfOpen then b.probeCount else 0)
      && c.successes == (if b.state == HalfOpen then b.successes else 0)
  {}

  /** A refusal changes no lease. */
  lemma RefusalKeepsLease(p: Policy, b: Breaker, owner: string, now: Time)
    requires PolicyOk(p) && LeaseAnswerOf(p, b, owner, now) != Acquired
    ensures var c := AcquireStep(p, b, owner, now);
      && c.leaseGeneration == b.leaseGeneration && c.state == b.state && c.failures == b.failures
      && c.leaseOwner == b.leaseOwner && c.leaseUntil == b.leaseUntil && c.probeCount == b.probeCount
      && (b.state != HalfOpen || b.probeBudget > 0 || b.probeCount < p.probeBudget ==> c == b)
      && (b.state == HalfOpen && b.probeBudget <= 0 && b.probeCount >= p.probeBudget ==> c == b.(probeBudget := p.probeBudget))
  {}
}
