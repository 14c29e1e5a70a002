/** The stored breakers: deriving them from a feed of observations, and handing out
    half-open probe leases. */
module BreakerStore {
  import opened Common
  import opened Cooldown
  import opened BreakerModel
  import opened BreakerReplay
  import opened BreakerEpisodes
  import opened BreakerTable

  // ----- Preparing the feed -----

  predicate DistinctIds(os: seq<Observation>) {
    forall i, j :: 0 <= i < j < |os| ==> os[i].id != os[j].id
  }

  predicate FirstOfItsId(os: seq<Observation>, i: nat)
    requires i < |os|
  {
    forall j :: 0 <= j < i ==> os[j].id != os[i].id
  }

  lemma {:induction false} IdsOfMeans(os: seq<Observation>, id: nat)
    ensures id in IdsOf(os) <==> exists i :: 0 <= i < |os| && os[i].id == id
    decreases |os|
  {
    if os != [] {
      var init := os[..|os| - 1];
      IdsOfMeans(init, id);
      if i :| 0 <= i < |init| && init[i].id == id {
        assert os[i].id == id;
      }
    }
  }

  lemma {:induction false} DedupeKeepsIds(os: seq<Observation>)
    ensures IdsOf(DedupeOf(os)) == IdsOf(os)
    decreases |os|
  {
    if os != [] {
      var init, last := os[..|os| - 1], os[|os| - 1];
      DedupeKeepsIds(init);
      assert last.id in IdsOf(init) ==> DedupeOf(os) == DedupeOf(init);
      assert (DedupeOf(init) + [last])[..|DedupeOf(init)|] == DedupeOf(init);
    }
  }

  lemma {:induction false} DedupeWithin(os: seq<Observation>)
    ensures multiset(DedupeOf(os)) <= multiset(os)
    decreases |os|
  {
    if os != [] {
      DedupeWithin(os[..|os| - 1]);
      assert os == os[..|os| - 1] + [os[|os| - 1]];
    }
  }

  lemma AppendDistinct(os: seq<Observation>, o: Observation)
    requires DistinctIds(os) && o.id !in IdsOf(os)
    ensures DistinctIds(os + [o])
  {
    IdsOfMeans(os, o.id);
  }

  lemma {:induction false} DedupeDistinct(os: seq<Observation>)
    ensures DistinctIds(DedupeOf(os))
    decreases |os|
  {
    if os != [] {
      var init, last := os[..|os| - 1], os[|os| - 1];
      DedupeDistinct(init);
      DedupeKeepsIds(init);
      if last.id in IdsOf(init) {
        assert DedupeOf(os) == DedupeOf(init);
      } else {
        AppendDistinct(DedupeOf(init), last);
      }
    }
  }

  lemma {:induction false} DedupeKeepsFirst(os: seq<Observation>, i: nat)
    requires i < |os| && FirstOfItsId(os, i)
    ensures os[i] in DedupeOf(os)
    decreases |os|
  {
    var init := os[..|os| - 1];
    if i < |os| - 1 {
      DedupeKeepsFirst(init, i);
    } else {
      IdsOfMeans(init, os[i].id);
    }
  }

  lemma DedupeFacts(os: seq<Observation>)
    ensures DistinctIds(DedupeOf(os)) && multiset(DedupeOf(os)) <= multiset(os)
    ensures forall i :: 0 <= i < |os| && FirstOfItsId(os, i) ==> os[i] in DedupeOf(os)
  {
    DedupeDistinct(os);
    DedupeWithin(os);
    forall i | 0 <= i < |os| && FirstOfItsId(os, i) ensures os[i] in DedupeOf(os) {
      DedupeKeepsFirst(os, i);
    }
  }

  /** Keeps exactly the first observation of each identifier. */
  method DedupeObservations(os: seq<Observation>) returns (out: seq<Observation>)
    ensures out == DedupeOf(os) && DistinctIds(out) && multiset(out) <= multiset(os)
    ensures forall i :: 0 <= i < |os| && FirstOfItsId(os, i) ==> os[i] in out
  {
    var seen: set<nat> := {};
    out := [];
    for i := 0 to |os|
      invariant seen == IdsOf(os[..i]) && out == DedupeOf(os[..i])
    {
      assert os[..i + 1][..i] == os[..i];
      if os[i].id !in seen {
        seen := seen + {os[i].id};
        out := out + [os[i]];
      }
    }
    assert os[..|os|] == os;
    DedupeFacts(os);
  }

  lemma InsertHolds(s: seq<Observation>, o: Observation, x: Observation)
    requires x in Insert(s, o)
    ensures x in s || x == o
  {
    assert x in multiset(Insert(s, o));
  }

  lemma AppendSorted(s: seq<Observation>, o: Observation)
    requires Sorted(s) && forall x :: x in s ==> NotAfter(x, o)
    ensures Sorted(s + [o])
  {}

  lemma {:induction false} InsertKeepsSorted(s: seq<Observation>, o: Observation)
    requires Sorted(s)
    ensures Sorted(Insert(s, o))
    decreases |s|
  {
    if s != [] {
      var init, last := s[..|s| - 1], s[|s| - 1];
      if NotAfter(last, o) {
        AppendSorted(s, o);
      } else {
        InsertKeepsSorted(init, o);
        forall x | x in Insert(init, o) ensures NotAfter(x, last) {
          InsertHolds(init, o, x);
        }
        AppendSorted(Insert(init, o), last);
      }
    }
  }

  lemma {:induction false} SortedOfPermutes(os: seq<Observation>)
    ensures multiset(SortedOf(os)) == multiset(os)
    decreases |os|
  {
    if os != [] {
      SortedOfPermutes(os[..|os| - 1]);
      assert os == os[..|os| - 1] + [os[|os| - 1]];
    }
  }

  lemma {:induction false} SortedOfSorts(os: seq<Observation>)
    ensures Sorted(SortedOf(os))
    decreases |os|
  {
    if os != [] {
      SortedOfSorts(os[..|os| - 1]);
      InsertKeepsSorted(SortedOf(os[..|os| - 1]), os[|os| - 1]);
    }
  }

  method SortObservations(os: seq<Observation>) returns (out: seq<Observation>)
    ensures out == SortedOf(os) && Sorted(out) && multiset(out) == multiset(os)
  {
    out := [];
    for i := 0 to |os|
      invariant out == SortedOf(os[..i])
    {
      assert os[..i + 1][..i] == os[..i];
      out := Insert(out, os[i]);
    }
    assert os[..|os|] == os;
    SortedOfSorts(os);
    SortedOfPermutes(os);
  }

  /** The feed that is folded is sorted and holds exactly one observation of each identifier,
      the first. */
  lemma PreparedFeed(os: seq<Observation>)
    ensures Sorted(Prepared(os)) && multiset(Prepared(os)) == multiset(DedupeOf(os)) <= multiset(os)
    ensures DistinctIds(DedupeOf(os))
    ensures forall i :: 0 <= i < |os| && FirstOfItsId(os, i) ==> os[i] in Prepared(os)
  {
    SortedOfSorts(DedupeOf(os));
    SortedOfPermutes(DedupeOf(os));
    DedupeFacts(os);
    forall i | 0 <= i < |os| && FirstOfItsId(os, i) ensures os[i] in Prepared(os) {
      assert os[i] in multiset(DedupeOf(os));
      assert os[i] in multiset(Prepared(os));
    }
  }

  // ----- Deriving -----

  /** The cooldown as it is computed, by the two accumulator loops. */
  method ObservationCooldownUntil(p: Policy, b: Breaker, o: Observation, at: Time) returns (until: Time)
    ensures until == CooldownUntil(p, b, o, at)
  {
    match o.retry {
      case RetryAt(t) => return t;
      case RetryIn(seconds) => return at + seconds * SECOND;
      case NoRetry =>
    }
    match o.hint {
      case Until(t) => return t;
      case Unreadable => return at;
      case NoHint =>
    }
    var cooldown := CooldownFor(p.base, p.max, b.failures);
    if p.jitter > 0 {
      var jitter := DeterministicJitter(p.jitter, p.hex(b.key, o.id, o.stamp));
      cooldown := Wrap64(cooldown + jitter);
      if cooldown > p.max {
        cooldown := p.max;
      }
    }
    until := at + cooldown;
  }

  method OpenBreakerFor(p: Policy, b: Breaker, o: Observation, at: Time, reason: string) returns (c: Breaker)
    ensures c == OpenBreaker(p, b, o, at, reason)
  {
    c := b;
    if c.openedAt.None? || c.state != Open {
      c := c.(openedAt := Some(at));
    }
    c := c.(state := Open, reason := reason, probeBudget := p.probeBudget, probeCount := 0, successes := 0,
            leaseOwner := "", leaseUntil := None);
    var candidate := ObservationCooldownUntil(p, b, o, at);
    if c.openUntil.None? || c.openUntil.value <= candidate {
      c := c.(openUntil := Some(candidate));
    }
  }

  method FailBreaker(p: Policy, b: Breaker, o: Observation, event: Event, at: Time) returns (c: Breaker)
    ensures c == Fail(p, b, o, event, at)
  {
    var reason := if o.reason == "" then "unknown-telemetry" else o.reason;
    c := b.(failures := b.failures + 1, successes := 0);
    if event == Outage {
      c := OpenBreakerFor(p, c, o, at, reason);
    } else if b.state == HalfOpen || c.failures >= p.threshold {
      c := OpenBreakerFor(p, c.(reason := reason), o, at, reason);
    } else {
      c := c.(reason := reason);
    }
  }

  method ApplyBreakerEvent(p: Policy, b: Breaker, o: Observation, event: Event, now: Time) returns (c: Breaker)
    ensures c == ApplyEvent(p, b, o, event, now)
  {
    if Seen(b, o) {
      return b;
    }
    if event == Success {
      c := Succeed(p, b);
    } else {
      c := FailBreaker(p, b, o, event, if o.at.Some? then o.at.value else now);
    }
    c := Versioned(b, c.(lastId := Some(o.id), lastStamp := Some(o.stamp)));
  }

  /** A success reaches every breaker whose scope it matches. */
  method SpreadSuccess(p: Policy, m: Table, o: Observation, now: Time) returns (out: Table)
    requires IsSuccess(o)
    ensures out == FoldOne(p, m, o, now)
  {
    out := m;
    var rest := m.Keys;
    while rest != {}
      invariant rest <= m.Keys && out.Keys == m.Keys
      invariant forall k :: k in m ==> out[k] == if k in rest then m[k] else AfterSuccess(p, m[k], o, now)
      decreases rest
    {
      var k :| k in rest;
      if ScopeMatches(out[k].key.scope, o) {
        var b := ApplyBreakerEvent(p, out[k], o, Success, now);
        out := out[k := b];
      }
      rest := rest - {k};
    }
    assert out == FoldOne(p, m, o, now);
  }

  method AdvanceEach(p: Policy, m: Table, now: Time) returns (out: Table)
    ensures out == AdvanceAll(p, m, now)
  {
    out := m;
    var rest := m.Keys;
    while rest != {}
      invariant rest <= m.Keys && out.Keys == m.Keys
      invariant forall k :: k in m ==> out[k] == if k in rest then m[k] else AdvanceCooldown(p, m[k], now)
      decreases rest
    {
      var k :| k in rest;
      out := out[k := AdvanceCooldown(p, out[k], now)];
      rest := rest - {k};
    }
  }

  method DeriveCircuitBreakers(p: Policy, existing: Table, os: seq<Observation>, now: Time) returns (m: Table)
    ensures m == Derive(p, existing, os, now)
  {
    m := AdvanceEach(p, existing, now);
    ghost var start := m;
    for i := 0 to |os|
      invariant m == Fold(p, start, os[..i], now)
    {
      var o := os[i];
      assert os[..i + 1][..i] == os[..i];
      if IsSuccess(o) {
        m := SpreadSuccess(p, m, o, now);
      } else if Route(o).Some? {
        var k := RouteKey(o);
        var b := if k in m then m[k] else Fresh(k, o.reason);
        b := ApplyBreakerEvent(p, b, o, Route(o).value.1, now);
        m := m[k := b];
      }
    }
    assert os[..|os|] == os;
  }

  class Store {
    var breakers: Table

    ghost predicate Valid()
      reads this
    {
      KeysOk(breakers)
    }

    constructor ()
      ensures Valid() && breakers == map[]
    {
      breakers := map[];
    }

    /** Derives from what is stored and writes the result back. The feed that was used
        is sorted, so feeding it again changes nothing but elapsed cooldowns. */
    method Refresh(os: seq<Observation>, policy: Policy, now: Time) returns (feed: seq<Observation>)
      requires Valid()
      modifies this
      ensures Valid() && feed == Prepared(os) && Sorted(feed) && multiset(feed) <= multiset(os)
      ensures forall i :: 0 <= i < |os| && FirstOfItsId(os, i) ==> os[i] in feed
      ensures breakers == Step(NormalizePolicy(policy), old(breakers), BreakerTable.Refresh(os, now))
      ensures Derive(NormalizePolicy(policy), breakers, feed, now) == AdvanceAll(NormalizePolicy(policy), breakers, now)
    {
      var p := NormalizePolicy(policy);
      var unique := DedupeObservations(os);
      feed := SortObservations(unique);
      PreparedFeed(os);
      DeriveSettles(p, breakers, feed, now);
      assert KeysOk(AdvanceAll(p, breakers, now));
      FoldAbsorbs(p, AdvanceAll(p, breakers, now), feed, now);
      breakers := DeriveCircuitBreakers(p, breakers, feed, now);
    }

    method AcquireHalfOpenProbeLease(key: Key, owner: string, policy: Policy, now: Time) returns (answer: LeaseAnswer)
      requires Valid()
      modifies this
      ensures Valid()
      ensures breakers == Step(NormalizePolicy(policy), old(breakers), AcquireLease(key, owner, now))
      ensures answer == if key !in old(breakers) then NoBreaker
                        else LeaseAnswerOf(NormalizePolicy(policy), old(breakers)[key], owner, now)
    {
      if key !in breakers {
        return NoBreaker;
      }
      var p := NormalizePolicy(policy);
      var b := AdvanceCooldown(p, breakers[key], now);
      if b.state != HalfOpen {
        breakers := breakers[key := b];
        return NotHalfOpen;
      }
      if b.probeBudget <= 0 {
        b := b.(probeBudget := p.probeBudget);
      }
      if b.probeCount >= b.probeBudget {
        breakers := breakers[key := b];
        return LeaseActive;
      }
      if LeaseHeld(b, Owner(owner), now) {
        return LeaseActive;
      }
      var before := b;
      b := b.(leaseOwner := Owner(owner), leaseUntil := Some(now + p.leaseDuration));
      b := b.(leaseGeneration := b.leaseGeneration + 1, probeCount := b.probeCount + 1, reason := "cooldown-elapsed");
      if b != before {
        b := b.(version := before.version + 1);
      }
      breakers := breakers[key := b];
      answer := Acquired;
    }

    /** Any sequence of derivations and lease requests under one policy. */
    method PerformAll(ops: seq<Op>, policy: Policy)
      requires Valid()
      modifies this
      ensures Valid() && breakers == Stored(NormalizePolicy(policy), old(breakers), ops)
    {
      for i := 0 to |ops|
        invariant Valid() && breakers == Stored(NormalizePolicy(policy), old(breakers), ops[..i])
      {
        assert ops[..i + 1][..i] == ops[..i];
        match ops[i] {
          case Refresh(os, now) =>
            var _ := Refresh(os, policy, now);
          case AcquireLease(key, owner, now) =>
            var _ := AcquireHalfOpenProbeLease(key, owner, policy, now);
        }
      }
      assert ops[..|ops|] == ops;
    }
  }
}
