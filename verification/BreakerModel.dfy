/** Circuit breakers: one breaker's transitions, and the fold of observations over a
    table of breakers. */
module BreakerModel {
  import opened Common
  import opened Cooldown

  /** Nanoseconds. */
  type Time = int

  datatype State = Closed | Open | HalfOpen

  datatype Kind = Quota | RateLimit | Auth | Health | Model | Transport

  datatype Scope = Scope(
    project: string, adapter: string, installation: string, account: string, model: string, canonical: string)

  datatype ObservationKind =
    | ProbeSuccess | LaunchSuccess | ProbeFailure | LaunchFailure | TransportFailure | MalformedResponse
    | ProviderOutage | RateLimited | QuotaExhausted | AuthFailure | ModelUnavailable | Unclassified

  datatype Retry = NoRetry | RetryAt(at: Time) | RetryIn(seconds: nat)

  /** A cooldown hint that cannot be read counts as "now". */
  datatype Hint = NoHint | Until(until: Time) | Unreadable

  /** `stamp` and `id` are the ranks of the observed_at text and of the identifier in
      byte order; `at` is the instant the text denotes, if it can be read. */
  datatype Observation = Observation(
    id: nat, stamp: nat, at: Option<Time>, kind: ObservationKind, scope: Scope,
    retry: Retry, hint: Hint, reason: string)

  datatype Key = Key(kind: Kind, scope: Scope)

  datatype Breaker = Breaker(
    key: Key, state: State, reason: string, openedAt: Option<Time>, openUntil: Option<Time>,
    probeBudget: int, probeCount: nat, failures: nat, successes: nat,
    lastStamp: Option<nat>, lastId: Option<nat>, version: nat,
    leaseOwner: string, leaseUntil: Option<Time>, leaseGeneration: nat)

  /** `hex` is the hex digest of seed, breaker and observation. */
  datatype Policy = Policy(
    threshold: int, base: int, max: int, jitter: int, hex: (Key, nat, nat) -> Digest,
    probeBudget: int, required: int, leaseDuration: int)

  const SECOND: int := 1_000_000_000
  const MINUTE: int := 60 * SECOND

  function OrDefault(v: int, d: int): int {
    if v <= 0 then d else v
  }

  function NormalizePolicy(p: Policy): (r: Policy)
    ensures PolicyOk(r)
    ensures PolicyOk(p) ==> r == p
  {
    var base := OrDefault(p.base, 5 * MINUTE);
    var max := OrDefault(p.max, 60 * MINUTE);
    Policy(OrDefault(p.threshold, 3), base, if max < base then base else max, p.jitter, p.hex,
           OrDefault(p.probeBudget, 1), OrDefault(p.required, 1), OrDefault(p.leaseDuration, 2 * MINUTE))
  }

  predicate PolicyOk(p: Policy) {
    p.threshold > 0 && 0 < p.base <= p.max && p.probeBudget > 0 && p.required > 0 && p.leaseDuration > 0
  }

  // ----- One breaker -----

  function Fresh(key: Key, reason: string): Breaker {
    Breaker(key, Closed, reason, None, None, 0, 0, 0, 0, None, None, 1, "", None, 0)
  }

  /** The watermark: everything up to the last applied observation was seen. */
  predicate Seen(b: Breaker, o: Observation) {
    match b.lastStamp
    case None => b.lastId == Some(o.id)
    case Some(last) => o.stamp < last || (o.stamp == last && b.lastId.Some? && o.id <= b.lastId.value)
  }

  datatype Event = Success | Transient | Outage

  /** The record version counts changes of anything else. */
  function Versioned(before: Breaker, b: Breaker): Breaker {
    if b.(version := before.version) != before then b.(version := before.version + 1) else b
  }

  function Jitter(p: Policy, b: Breaker, o: Observation): int
    requires p.jitter > 0
  {
    HexValue(p.hex(b.key, o.id, o.stamp)[..16]) % JitterModulus(p.jitter)
  }

  function CooldownLength(p: Policy, b: Breaker, o: Observation): int {
    var c := Doubling(p.base, p.max, 1, b.failures);
    if p.jitter > 0 then Min(Wrap64(c + Jitter(p, b, o)), p.max) else c
  }

  function CooldownUntil(p: Policy, b: Breaker, o: Observation, at: Time): Time {
    match o.retry
    case RetryAt(t) => t
    case RetryIn(s) => at + s * SECOND
    case NoRetry =>
      match o.hint
      case Until(t) => t
      case Unreadable => at
      case NoHint => at + CooldownLength(p, b, o)
  }

  function OpenBreaker(p: Policy, b: Breaker, o: Observation, at: Time, reason: string): Breaker {
    var candidate := CooldownUntil(p, b, o, at);
    b.(openedAt := if b.openedAt.None? || b.state != Open then Some(at) else b.openedAt,
       state := Open, reason := reason, probeBudget := p.probeBudget, probeCount := 0, successes := 0,
       leaseOwner := "", leaseUntil := None,
       openUntil := Some(if b.openUntil.Some? && b.openUntil.value > candidate then b.openUntil.value else candidate))
  }

  function Succeed(p: Policy, b: Breaker): Breaker {
    match b.state
    case Closed => b.(failures := 0, successes := b.successes + 1, reason := "recovery-succeeded")
    case Open => b
    case HalfOpen =>
      var c := b.(successes := b.successes + 1, reason := "recovery-succeeded");
      if c.successes >= p.required then
        c.(state := Closed, openedAt := None, openUntil := None, probeCount := 0, failures := 0,
           leaseOwner := "", leaseUntil := None)
      else c
  }

  function Fail(p: Policy, b: Breaker, o: Observation, event: Event, at: Time): Breaker {
    var reason := if o.reason == "" then "unknown-telemetry" else o.reason;
    var c := b.(failures := b.failures + 1, successes := 0);
    if event == Outage then OpenBreaker(p, c, o, at, reason)
    else if b.state == HalfOpen || c.failures >= p.threshold then OpenBreaker(p, c.(reason := reason), o, at, reason)
    else c.(reason := reason)
  }

  function ApplyEvent(p: Policy, b: Breaker, o: Observation, event: Event, now: Time): Breaker {
    if Seen(b, o) then b
    else
      var at := if o.at.Some? then o.at.value else now;
      var c := if event == Success then Succeed(p, b) else Fail(p, b, o, event, at);
      Versioned(b, c.(lastId := Some(o.id), lastStamp := Some(o.stamp)))
  }

  function AdvanceCooldown(p: Policy, b: Breaker, now: Time): Breaker {
    if b.state != Open || b.openUntil.None? || now < b.openUntil.value then b
    else
      Versioned(b, b.(state := HalfOpen, reason := "cooldown-elapsed", probeBudget := p.probeBudget,
                      probeCount := 0, successes := 0, leaseOwner := "", leaseUntil := None))
  }

  // ----- The table -----

  type Table = map<Key, Breaker>

  predicate IsSuccess(o: Observation) {
    o.kind == ProbeSuccess || o.kind == LaunchSuccess
  }

  /** The breaker kind and event an observation stands for, if it is a failure. */
  function Route(o: Observation): Option<(Kind, Event)> {
    match o.kind
    case RateLimited => Some((RateLimit, Outage))
    case QuotaExhausted => Some((Quota, Outage))
    case AuthFailure => Some((Auth, Outage))
    case ModelUnavailable => Some((Model, Outage))
    case ProviderOutage => Some((Health, Outage))
    case MalformedResponse => Some((Health, Transient))
    case TransportFailure => Some((Transport, Transient))
    case ProbeFailure => Some((Transport, Transient))
    case LaunchFailure => Some((Transport, Transient))
    case _ => None
  }

  function BreakerScope(kind: Kind, s: Scope): Scope {
    var out := Scope(s.project, s.adapter, s.installation, "", "", "");
    match kind
    case Health => out
    case Auth => out.(account := s.account)
    case _ => out.(account := s.account, model := s.model, canonical := s.canonical)
  }

  predicate Agree(a: string, b: string) {
    a == "" || b == "" || a == b
  }

  /** Empty fields match anything, on either side. */
  predicate ScopeMatches(s: Scope, o: Observation) {
    && Agree(s.adapter, o.scope.adapter) && Agree(s.installation, o.scope.installation)
    && Agree(s.account, o.scope.account) && Agree(s.model, o.scope.model)
  }

  function RouteKey(o: Observation): Key
    requires Route(o).Some?
  {
    Key(Route(o).value.0, BreakerScope(Route(o).value.0, o.scope))
  }

  function AfterSuccess(p: Policy, b: Breaker, o: Observation, now: Time): Breaker {
    if ScopeMatches(b.key.scope, o) then ApplyEvent(p, b, o, Success, now) else b
  }

  function FoldOne(p: Policy, m: Table, o: Observation, now: Time): Table {
    if IsSuccess(o) then map k | k in m :: AfterSuccess(p, m[k], o, now)
    else if Route(o).None? then m
    else
      var k := RouteKey(o);
      var b := if k in m then m[k] else Fresh(k, o.reason);
      m[k := ApplyEvent(p, b, o, Route(o).value.1, now)]
  }

  function Fold(p: Policy, m: Table, os: seq<Observation>, now: Time): Table
    decreases |os|
  {
    if os == [] then m else FoldOne(p, Fold(p, m, os[..|os| - 1], now), os[|os| - 1], now)
  }

  function AdvanceAll(p: Policy, m: Table, now: Time): Table {
    map k | k in m :: AdvanceCooldown(p, m[k], now)
  }

  function Derive(p: Policy, m: Table, os: seq<Observation>, now: Time): Table {
    Fold(p, AdvanceAll(p, m, now), os, now)
  }

  /** The order in which observations are fed: by stamp, then by identifier. */
  predicate NotAfter(a: Observation, b: Observation) {
    a.stamp < b.stamp || (a.stamp == b.stamp && a.id <= b.id)
  }

  predicate Sorted(os: seq<Observation>) {
    forall i, j :: 0 <= i < j < |os| ==> NotAfter(os[i], os[j])
  }
}
