/** One breaker over a whole run: recovery, back-off and half-open probe leases. */
module BreakerEpisodes {
  import opened Common
  import opened Cooldown
  import opened BreakerModel

  // ----- Half-open probe leases -----

  function Owner(owner: string): string {
    if Blank(owner) then "anonymous-probe" else Trim(owner)
  }

  /** Somebody else holds an unexpired lease. */
  predicate LeaseHeld(b: Breaker, owner: string, now: Time) {
    b.leaseOwner != "" && b.leaseOwner != owner && b.leaseUntil.Some? && now < b.leaseUntil.value
  }

  function Budget(p: Policy, b: Breaker): int {
    if b.probeBudget <= 0 then p.probeBudget else b.probeBudget
  }

  /** The stored breaker is first moved past an elapsed cooldown. */
  predicate Grants(p: Policy, b: Breaker, owner: string, now: Time) {
    var c := AdvanceCooldown(p, b, now);
    c.state == HalfOpen && c.probeCount < Budget(p, c) && !LeaseHeld(c, Owner(owner), now)
  }

  function Granted(p: Policy, c: Breaker, owner: string, now: Time): Breaker {
    Versioned(c, c.(leaseOwner := Owner(owner), leaseUntil := Some(now + p.leaseDuration),
                    leaseGeneration := c.leaseGeneration + 1, probeCount := c.probeCount + 1,
                    reason := "cooldown-elapsed"))
  }

  /** What is stored after an attempt to acquire the probe lease. */
  function AcquireStep(p: Policy, b: Breaker, owner: string, now: Time): Breaker {
    var c := AdvanceCooldown(p, b, now);
    if c.state != HalfOpen then c
    else
      var d := c.(probeBudget := Budget(p, c));
      if d.probeCount >= d.probeBudget then d
      else if LeaseHeld(d, Owner(owner), now) then b
      else Granted(p, d, owner, now)
  }

  datatype LeaseAnswer = NoBreaker | NotHalfOpen | LeaseActive | Acquired

  /** What the caller is told who asks for the probe lease. */
  function LeaseAnswerOf(p: Policy, b: Breaker, owner: string, now: Time): LeaseAnswer {
    if AdvanceCooldown(p, b, now).state != HalfOpen then NotHalfOpen
    else if Grants(p, b, owner, now) then Acquired
    else LeaseActive
  }

  // ----- Runs of one breaker -----

  datatype Act =
    | Advance(now: Time)
    | Observe(o: Observation, event: Event, now: Time)
    | Acquire(owner: string, now: Time)

  function Do(p: Policy, b: Breaker, a: Act): Breaker {
    match a
    case Advance(now) => AdvanceCooldown(p, b, now)
    case Observe(o, event, now) => ApplyEvent(p, b, o, event, now)
    case Acquire(owner, now) => AcquireStep(p, b, owner, now)
  }

  function Run(p: Policy, b: Breaker, acts: seq<Act>): Breaker
    decreases |acts|
  {
    if acts == [] then b else Do(p, Run(p, b, acts[..|acts| - 1]), acts[|acts| - 1])
  }

  /** The breaker before act `i` of the run. */
  function At(p: Policy, b: Breaker, acts: seq<Act>, i: nat): Breaker
    requires i <= |acts|
  {
    Run(p, b, acts[..i])
  }

  lemma AtNext(p: Policy, b: Breaker, acts: seq<Act>, i: nat)
    requires i < |acts|
    ensures At(p, b, acts, i + 1) == Do(p, At(p, b, acts, i), acts[i])
  {
    assert acts[..i + 1][..i] == acts[..i];
  }

  lemma AtPrefix(p: Policy, b: Breaker, acts: seq<Act>, n: nat, i: nat)
    requires i <= n <= |acts|
    ensures At(p, b, acts[..n], i) == At(p, b, acts, i)
  {
    assert acts[..n][..i] == acts[..i];
  }

  predicate IsApplied(b: Breaker, a: Act) {
    a.Observe? && !Seen(b, a.o)
  }

  predicate IsSuccessAct(b: Breaker, a: Act) {
    IsApplied(b, a) && a.event == Success
  }

  predicate IsGrant(p: Policy, b: Breaker, a: Act) {
    a.Acquire? && Grants(p, b, a.owner, a.now)
  }

  /** Applied successes among acts `lo..hi`. */
  function Successes(p: Policy, b: Breaker, acts: seq<Act>, lo: nat, hi: nat): nat
    requires lo <= hi <= |acts|
  {
    if lo == hi then 0
    else Successes(p, b, acts, lo, hi - 1) + if IsSuccessAct(At(p, b, acts, hi - 1), acts[hi - 1]) then 1 else 0
  }

  /** Leases granted by acts `lo..hi`. */
  function GrantCount(p: Policy, b: Breaker, acts: seq<Act>, lo: nat, hi: nat): nat
    requires lo <= hi <= |acts|
  {
    if lo == hi then 0
    else GrantCount(p, b, acts, lo, hi - 1) + if IsGrant(p, At(p, b, acts, hi - 1), acts[hi - 1]) then 1 else 0
  }

  /** Act `k` is the elapsed cooldown that starts a half-open episode. */
  predicate StartsEpisode(p: Policy, b: Breaker, acts: seq<Act>, k: nat)
    requires k < |acts|
  {
    var before := At(p, b, acts, k);
    && !acts[k].Observe?
    && before.state == Open && before.openUntil.Some? && before.openUntil.value <= acts[k].now
  }

  /** From act `k` to `n` the breaker is in one half-open episode. */
  predicate Episode(p: Policy, b: Breaker, acts: seq<Act>, k: nat, n: nat)
    requires k < n <= |acts|
  {
    && StartsEpisode(p, b, acts, k)
    && (forall i :: k < i <= n ==> At(p, b, acts, i).state == HalfOpen)
    && (forall i :: k < i < n && IsApplied(At(p, b, acts, i), acts[i]) ==> acts[i].event == Success)
  }

  lemma EnterHalfOpen(p: Policy, b: Breaker, a: Act)
    requires PolicyOk(p) && b.state != HalfOpen && Do(p, b, a).state == HalfOpen
    ensures !a.Observe? && b.state == Open && b.openUntil.Some? && b.openUntil.value <= a.now
    ensures var c := Do(p, b, a);
      c.successes == 0 && c.probeBudget == p.probeBudget && c.probeCount == if IsGrant(p, b, a) then 1 else 0
  {}

  lemma StayHalfOpen(p: Policy, b: Breaker, a: Act)
    requires b.state == HalfOpen && Do(p, b, a).state == HalfOpen
    requires b.probeBudget == p.probeBudget > 0 && b.probeCount <= b.probeBudget
    ensures IsApplied(b, a) ==> a.event == Success
    ensures var c := Do(p, b, a);
      && c.successes == b.successes + (if IsSuccessAct(b, a) then 1 else 0)
      && c.probeBudget == p.probeBudget
      && c.probeCount == b.probeCount + (if IsGrant(p, b, a) then 1 else 0) <= p.probeBudget
  {}

  /** An episode whose successes and leases the breaker's counters count. */
  predicate CountedEpisode(p: Policy, b: Breaker, acts: seq<Act>, k: nat, n: nat)
    requires k < n <= |acts|
  {
    var c := At(p, b, acts, n);
    && Episode(p, b, acts, k, n)
    && c.successes == Successes(p, b, acts, k + 1, n)
    && c.probeCount == GrantCount(p, b, acts, k, n) <= p.probeBudget
    && c.probeBudget == p.probeBudget
  }

  lemma EpisodeStarts(p: Policy, b: Breaker, acts: seq<Act>, k: nat)
    requires PolicyOk(p) && k < |acts|
    requires At(p, b, acts, k).state != HalfOpen && At(p, b, acts, k + 1).state == HalfOpen
    ensures CountedEpisode(p, b, acts, k, k + 1)
  {
    AtNext(p, b, acts, k);
    EnterHalfOpen(p, At(p, b, acts, k), acts[k]);
  }

  lemma EpisodeNext(p: Policy, b: Breaker, acts: seq<Act>, k: nat, n: nat)
    requires PolicyOk(p) && k < n < |acts| && CountedEpisode(p, b, acts, k, n)
    requires At(p, b, acts, n + 1).state == HalfOpen
    ensures CountedEpisode(p, b, acts, k, n + 1)
  {
    var before := At(p, b, acts, n);
    assert before.state == HalfOpen;
    AtNext(p, b, acts, n);
    StayHalfOpen(p, before, acts[n]);
    EpisodeExtends(p, b, acts, k, n);
  }

  lemma EpisodeExtends(p: Policy, b: Breaker, acts: seq<Act>, k: nat, n: nat)
    requires k < n < |acts| && Episode(p, b, acts, k, n) && At(p, b, acts, n + 1).state == HalfOpen
    requires IsApplied(At(p, b, acts, n), acts[n]) ==> acts[n].event == Success
    ensures Episode(p, b, acts, k, n + 1)
  {
    forall i | k < i <= n + 1 ensures At(p, b, acts, i).state == HalfOpen {}
    forall i | k < i < n + 1 && IsApplied(At(p, b, acts, i), acts[i]) ensures acts[i].event == Success {}
  }

  /** A breaker that is half-open after `n` acts entered it by an elapsed cooldown, has
      seen no failure since, and was granted at most the budgeted number of leases. */
  lemma {:induction false} HalfOpenEpisode(p: Policy, b: Breaker, acts: seq<Act>, n: nat) returns (k: nat)
    requires PolicyOk(p) && b.state != HalfOpen
    requires n <= |acts| && At(p, b, acts, n).state == HalfOpen
    ensures k < n && CountedEpisode(p, b, acts, k, n)
    decreases n
  {
    assert acts[..0] == [];
    if n > 0 {
      if At(p, b, acts, n - 1).state == HalfOpen {
        k := HalfOpenEpisode(p, b, acts, n - 1);
        EpisodeNext(p, b, acts, k, n - 1);
      } else {
        k := n - 1;
        EpisodeStarts(p, b, acts, k);
      }
    }
  }

  /** An open breaker closes only after its cooldown elapsed and, in the half-open
      episode that followed, the required number of successes and no failure. */
  lemma RecoveryPath(p: Policy, b: Breaker, acts: seq<Act>, n: nat) returns (k: nat)
    requires PolicyOk(p) && b.state == Open && n < |acts|
    requires At(p, b, acts, n).state != Closed && At(p, b, acts, n + 1).state == Closed
    ensures k < n && Episode(p, b, acts, k, n)
    ensures IsSuccessAct(At(p, b, acts, n), acts[n])
    ensures Successes(p, b, acts, k + 1, n + 1) >= p.required
  {
    AtNext(p, b, acts, n);
    k := HalfOpenEpisode(p, b, acts, n);
  }

  predicate BelowThreshold(p: Policy, b: Breaker) {
    b.state == Closed ==> b.failures < p.threshold
  }

  /** A closed breaker has fewer failures than the threshold. */
  lemma {:induction false} ClosedBelowThreshold(p: Policy, b: Breaker, acts: seq<Act>)
    requires PolicyOk(p) && BelowThreshold(p, b)
    ensures BelowThreshold(p, Run(p, b, acts))
    decreases |acts|
  {
    if acts != [] {
      ClosedBelowThreshold(p, b, acts[..|acts| - 1]);
    }
  }

  lemma KeepsOpenUntil(p: Policy, b: Breaker, a: Act)
    requires b.openUntil.Some? && Do(p, b, a).state != Closed
    ensures Do(p, b, a).openUntil.Some? && Do(p, b, a).openUntil.value >= b.openUntil.value
  {}

  /** Until the breaker closes, its cooldown is never cut short. */
  lemma {:induction false} OpenUntilNeverEarlier(p: Policy, b: Breaker, acts: seq<Act>)
    requires b.openUntil.Some?
    requires forall i :: 0 <= i <= |acts| ==> At(p, b, acts, i).state != Closed
    ensures Run(p, b, acts).openUntil.Some? && Run(p, b, acts).openUntil.value >= b.openUntil.value
    decreases |acts|
  {
    if acts != [] {
      var n := |acts| - 1;
      forall i | 0 <= i <= n ensures At(p, b, acts[..n], i).state != Closed {
        AtPrefix(p, b, acts, n, i);
      }
      OpenUntilNeverEarlier(p, b, acts[..n]);
      assert acts[..|acts|] == acts;
      assert At(p, b, acts, |acts|).state != Closed;
      KeepsOpenUntil(p, Run(p, b, acts[..n]), acts[n]);
    }
  }

  /** Without a provider hint a breaker opens for at least the base and at most the
      maximal cooldown, whatever the jitter. */
  lemma CooldownWithinBounds(p: Policy, b: Breaker, o: Observation, at: Time)
    requires PolicyOk(p) && p.max < TWO_62 && o.retry == NoRetry && o.hint == NoHint
    ensures at + p.base <= CooldownUntil(p, b, o, at) <= at + p.max
    ensures p.jitter <= 0 ==> CooldownUntil(p, b, o, at) == at + Backoff(p.base, p.max, b.failures)
  {
    DoublingIsBackoff(p.base, p.max, b.failures);
    if p.jitter > 0 {
      NoWrap(Doubling(p.base, p.max, 1, b.failures) + Jitter(p, b, o));
    }
  }

  lemma GrantRaisesGeneration(p: Policy, b: Breaker, a: Act)
    ensures Do(p, b, a).leaseGeneration == b.leaseGeneration + if IsGrant(p, b, a) then 1 else 0
  {}

  /** Each granted lease has a generation of its own, higher than all before it. */
  lemma {:induction false} LeaseGenerationCountsGrants(p: Policy, b: Breaker, acts: seq<Act>, n: nat)
    requires n <= |acts|
    ensures At(p, b, acts, n).leaseGeneration == b.leaseGeneration + GrantCount(p, b, acts, 0, n)
    decreases n
  {
    if n == 0 {
      assert acts[..0] == [];
    } else {
      AtNext(p, b, acts, n - 1);
      GrantRaisesGeneration(p, At(p, b, acts, n - 1), acts[n - 1]);
      LeaseGenerationCountsGrants(p, b, acts, n - 1);
    }
  }

  /** No act between `i` and `n` grants a lease, and the episode goes on. */
  predicate Undisturbed(p: Policy, b: Breaker, acts: seq<Act>, i: nat, n: nat)
    requires i <= n <= |acts|
  {
    && (forall j :: i <= j <= n ==> At(p, b, acts, j).state == HalfOpen)
    && (forall j :: i <= j < n ==> !IsGrant(p, At(p, b, acts, j), acts[j]))
  }

  lemma {:induction false} LeaseStays(p: Policy, b: Breaker, acts: seq<Act>, i: nat, n: nat)
    requires i <= n <= |acts| && Undisturbed(p, b, acts, i, n)
    ensures At(p, b, acts, n).leaseOwner == At(p, b, acts, i).leaseOwner
    ensures At(p, b, acts, n).leaseUntil == At(p, b, acts, i).leaseUntil
    decreases n
  {
    if i < n {
      LeaseStays(p, b, acts, i, n - 1);
      AtNext(p, b, acts, n - 1);
      assert At(p, b, acts, n - 1).state == HalfOpen && !IsGrant(p, At(p, b, acts, n - 1), acts[n - 1]);
      assert At(p, b, acts, n).state == HalfOpen;
    }
  }

  /** Within an episode a lease passes to another owner only once it has run out. */
  lemma LeaseIsExclusive(p: Policy, b: Breaker, acts: seq<Act>, i: nat, n: nat)
    requires i < n < |acts| && Undisturbed(p, b, acts, i + 1, n)
    requires IsGrant(p, At(p, b, acts, i), acts[i]) && IsGrant(p, At(p, b, acts, n), acts[n])
    requires Owner(acts[i].owner) != Owner(acts[n].owner)
    ensures acts[n].now >= acts[i].now + p.leaseDuration
  {
    AtNext(p, b, acts, i);
    LeaseStays(p, b, acts, i + 1, n);
    assert At(p, b, acts, n).state == HalfOpen;
    OwnerNotEmpty(acts[i].owner);
  }

  lemma OwnerNotEmpty(owner: string)
    ensures Owner(owner) != ""
  {}

  lemma {:induction false} RunConcat(p: Policy, b: Breaker, a: seq<Act>, c: seq<Act>)
    ensures Run(p, b, a + c) == Run(p, Run(p, b, a), c)
    decreases |c|
  {
    if c == [] {
      assert a + c == a;
    } else {
      RunConcat(p, b, a, c[..|c| - 1]);
      assert (a + c)[..|a + c| - 1] == a + c[..|c| - 1];
    }
  }
}
