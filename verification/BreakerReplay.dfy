/** Feeding observations again is harmless. */
module BreakerReplay {
  import opened Common
  import opened BreakerModel

  /** Breakers are filed under their own kind and scope. */
  predicate KeysOk(m: Table) {
    forall k :: k in m ==> m[k].key == k
  }

  /** Every breaker that `o` concerns exists and has seen it. */
  predicate Absorbed(m: Table, o: Observation) {
    if IsSuccess(o) then forall k :: k in m && ScopeMatches(m[k].key.scope, o) ==> Seen(m[k], o)
    else Route(o).Some? ==> RouteKey(o) in m && Seen(m[RouteKey(o)], o)
  }

  lemma AbsorbedChangesNothing(p: Policy, m: Table, o: Observation, now: Time)
    requires Absorbed(m, o)
    ensures FoldOne(p, m, o, now) == m
  {}

  /** Applying an observation leaves a watermark that covers everything not after it. */
  lemma ApplyRaisesMark(p: Policy, b: Breaker, o: Observation, event: Event, now: Time, earlier: Observation)
    requires NotAfter(earlier, o)
    ensures var c := ApplyEvent(p, b, o, event, now);
      Seen(c, o) && (Seen(b, earlier) || !Seen(b, o) ==> Seen(c, earlier)) && c.key == b.key
  {}

  lemma FoldOneAbsorbs(p: Policy, m: Table, o: Observation, now: Time, earlier: Observation)
    requires Absorbed(m, earlier) || earlier == o
    requires NotAfter(earlier, o)
    requires KeysOk(m)
    ensures Absorbed(FoldOne(p, m, o, now), earlier)
  {
    var n := FoldOne(p, m, o, now);
    if IsSuccess(earlier) {
      forall k | k in n && ScopeMatches(n[k].key.scope, earlier) ensures Seen(n[k], earlier) {
        MarkOnKey(p, m, o, now, earlier, k);
      }
    } else if Route(earlier).Some? {
      MarkOnKey(p, m, o, now, earlier, RouteKey(earlier));
    }
  }

  lemma MarkOnKey(p: Policy, m: Table, o: Observation, now: Time, earlier: Observation, k: Key)
    requires NotAfter(earlier, o) && KeysOk(m)
    requires k in FoldOne(p, m, o, now)
    requires k in m && m[k] == FoldOne(p, m, o, now)[k] ==> Seen(m[k], earlier)
    ensures Seen(FoldOne(p, m, o, now)[k], earlier)
  {
    if k in m {
      ApplyRaisesMark(p, m[k], o, Success, now, earlier);
      if Route(o).Some? {
        ApplyRaisesMark(p, m[k], o, Route(o).value.1, now, earlier);
      }
    } else {
      ApplyRaisesMark(p, Fresh(k, o.reason), o, Route(o).value.1, now, earlier);
    }
  }

  predicate AllAbsorbed(m: Table, os: seq<Observation>) {
    forall i :: 0 <= i < |os| ==> Absorbed(m, os[i])
  }

  lemma FoldOneKeys(p: Policy, m: Table, o: Observation, now: Time)
    requires KeysOk(m)
    ensures KeysOk(FoldOne(p, m, o, now)) && m.Keys <= FoldOne(p, m, o, now).Keys
  {}

  /** Folding a sorted feed leaves every observation of it absorbed. */
  lemma {:induction false} FoldAbsorbs(p: Policy, m: Table, os: seq<Observation>, now: Time)
    requires KeysOk(m) && Sorted(os)
    ensures KeysOk(Fold(p, m, os, now)) && AllAbsorbed(Fold(p, m, os, now), os)
    decreases |os|
  {
    if os != [] {
      var init, last := os[..|os| - 1], os[|os| - 1];
      FoldAbsorbs(p, m, init, now);
      var here := Fold(p, m, init, now);
      FoldOneKeys(p, here, last, now);
      forall i | 0 <= i < |os| ensures Absorbed(Fold(p, m, os, now), os[i]) {
        assert i < |init| ==> os[i] == init[i];
        FoldOneAbsorbs(p, here, last, now, os[i]);
      }
    }
  }

  lemma {:induction false} AbsorbedFeedChangesNothing(p: Policy, m: Table, os: seq<Observation>, now: Time)
    requires AllAbsorbed(m, os)
    ensures Fold(p, m, os, now) == m
    decreases |os|
  {
    if os != [] {
      AbsorbedFeedChangesNothing(p, m, os[..|os| - 1], now);
      AbsorbedChangesNothing(p, m, os[|os| - 1], now);
    }
  }

  /** Folding the same sorted feed a second time, at any later moment and under any
      policy, changes no breaker. */
  lemma RefeedChangesNothing(p: Policy, q: Policy, m: Table, os: seq<Observation>, now: Time, later: Time)
    requires KeysOk(m) && Sorted(os)
    ensures Fold(q, Fold(p, m, os, now), os, later) == Fold(p, m, os, now)
  {
    FoldAbsorbs(p, m, os, now);
    AbsorbedFeedChangesNothing(q, Fold(p, m, os, now), os, later);
  }

  // ----- When a feed changes nothing -----

  /** Breakers are only added, and one that differs has a higher record version. */
  predicate NotBefore(m: Table, n: Table) {
    forall k :: k in m ==> k in n && (n[k] == m[k] || m[k].version < n[k].version)
  }

  lemma NotBeforeBothWays(m: Table, n: Table)
    requires NotBefore(m, n) && NotBefore(n, m)
    ensures m == n
  {}

  lemma ApplyRaisesVersion(p: Policy, b: Breaker, o: Observation, event: Event, now: Time)
    ensures Seen(b, o) ==> ApplyEvent(p, b, o, event, now) == b
    ensures !Seen(b, o) ==> b.version < ApplyEvent(p, b, o, event, now).version
  {}

  lemma FoldOneNotBefore(p: Policy, m: Table, o: Observation, now: Time)
    ensures NotBefore(m, FoldOne(p, m, o, now))
  {
    forall k | k in m
      ensures k in FoldOne(p, m, o, now)
      ensures FoldOne(p, m, o, now)[k] == m[k] || m[k].version < FoldOne(p, m, o, now)[k].version
    {
      ApplyRaisesVersion(p, m[k], o, Success, now);
      if Route(o).Some? {
        ApplyRaisesVersion(p, m[k], o, Route(o).value.1, now);
      }
    }
  }

  lemma FoldOneAbsorbedIff(p: Policy, m: Table, o: Observation, now: Time)
    ensures FoldOne(p, m, o, now) == m <==> Absorbed(m, o)
  {
    if Absorbed(m, o) {
      AbsorbedChangesNothing(p, m, o, now);
    } else if IsSuccess(o) {
      var k :| k in m && ScopeMatches(m[k].key.scope, o) && !Seen(m[k], o);
      ApplyRaisesVersion(p, m[k], o, Success, now);
      assert FoldOne(p, m, o, now)[k] != m[k];
    } else {
      var k := RouteKey(o);
      assert k in FoldOne(p, m, o, now);
      if k in m {
        ApplyRaisesVersion(p, m[k], o, Route(o).value.1, now);
      }
    }
  }

  lemma {:induction false} FoldNotBefore(p: Policy, m: Table, os: seq<Observation>, now: Time)
    ensures NotBefore(m, Fold(p, m, os, now))
    decreases |os|
  {
    if os != [] {
      FoldNotBefore(p, m, os[..|os| - 1], now);
      FoldOneNotBefore(p, Fold(p, m, os[..|os| - 1], now), os[|os| - 1], now);
    }
  }

  /** Folding any feed into any table changes nothing exactly if every breaker an observation
      concerns exists and has seen it. */
  lemma {:induction false} FoldChangesNothingIff(p: Policy, m: Table, os: seq<Observation>, now: Time)
    ensures Fold(p, m, os, now) == m <==> AllAbsorbed(m, os)
    decreases |os|
  {
    if AllAbsorbed(m, os) {
      AbsorbedFeedChangesNothing(p, m, os, now);
    } else if Fold(p, m, os, now) == m {
      var init, last := os[..|os| - 1], os[|os| - 1];
      FoldNotBefore(p, m, init, now);
      FoldOneNotBefore(p, Fold(p, m, init, now), last, now);
      NotBeforeBothWays(m, Fold(p, m, init, now));
      FoldChangesNothingIff(p, m, init, now);
      FoldOneAbsorbedIff(p, m, last, now);
      assert forall i :: 0 <= i < |init| ==> Absorbed(m, init[i]);
      assert forall i :: 0 <= i < |os| ==> os[i] == if i < |init| then init[i] else last;
      assert false;
    }
  }

  /** Sorting matters: a success fed before the older failure that creates its breaker
      is applied by the second pass only. */
  lemma UnsortedRefeedChanges(p: Policy, now: Time)
    requires p.threshold > 1
    ensures var s := Scope("p", "a", "i", "c", "m", "n");
      var late := Observation(2, 2, None, ProbeSuccess, s, NoRetry, NoHint, "");
      var early := Observation(1, 1, None, TransportFailure, s, NoRetry, NoHint, "timeout");
      var once := Fold(p, map[], [late, early], now);
      Fold(p, once, [late, early], now) != once
  {
    var s := Scope("p", "a", "i", "c", "m", "n");
    var late := Observation(2, 2, None, ProbeSuccess, s, NoRetry, NoHint, "");
    var early := Observation(1, 1, None, TransportFailure, s, NoRetry, NoHint, "timeout");
    var os := [late, early];
    var k := RouteKey(early);
    assert os[..1] == [late] && [late][..0] == [];
    assert Fold(p, map[], [], now) == map[];
    assert Fold(p, map[], [late], now) == map[];
    var once := Fold(p, map[], os, now);
    assert once[k].lastStamp == Some(1) && once[k].failures == 1;
    assert Fold(p, once, [], now) == once;
    assert Fold(p, once, [late], now)[k].failures == 0;
    assert Fold(p, once, os, now)[k].failures == 0;
  }

  lemma {:induction false} FoldSplit(p: Policy, m: Table, a: seq<Observation>, b: seq<Observation>, now: Time)
    ensures Fold(p, m, a + b, now) == Fold(p, Fold(p, m, a, now), b, now)
    decreases |b|
  {
    if b == [] {
      assert a + b == a;
    } else {
      FoldSplit(p, m, a, b[..|b| - 1], now);
      assert (a + b)[..|a + b| - 1] == a + b[..|b| - 1];
    }
  }

  /** Feeding the whole history again together with what is new gives what feeding
      everything once would have given. */
  lemma GrowingFeed(p: Policy, m: Table, a: seq<Observation>, b: seq<Observation>, now: Time)
    requires KeysOk(m) && Sorted(a)
    ensures Fold(p, Fold(p, m, a, now), a + b, now) == Fold(p, m, a + b, now)
  {
    FoldSplit(p, Fold(p, m, a, now), a, b, now);
    RefeedChangesNothing(p, p, m, a, now, now);
    FoldSplit(p, m, a, b, now);
  }

  lemma AdvanceKeepsAbsorbed(p: Policy, m: Table, now: Time, os: seq<Observation>)
    requires KeysOk(m) && AllAbsorbed(m, os)
    ensures KeysOk(AdvanceAll(p, m, now)) && AllAbsorbed(AdvanceAll(p, m, now), os)
  {}

  lemma AdvanceTwice(p: Policy, m: Table, now: Time)
    ensures AdvanceAll(p, AdvanceAll(p, m, now), now) == AdvanceAll(p, m, now)
  {}

  /** Deriving again at the same moment is at most a cooldown advance, and from the
      second derivation on it is a fixed point. */
  lemma DeriveSettles(p: Policy, m: Table, os: seq<Observation>, now: Time)
    requires KeysOk(m) && Sorted(os)
    ensures var once := Derive(p, m, os, now);
      var twice := Derive(p, once, os, now);
      twice == AdvanceAll(p, once, now) && Derive(p, twice, os, now) == twice
  {
    var start := AdvanceAll(p, m, now);
    FoldAbsorbs(p, start, os, now);
    var once := Fold(p, start, os, now);
    AdvanceKeepsAbsorbed(p, once, now, os);
    var twice := AdvanceAll(p, once, now);
    AbsorbedFeedChangesNothing(p, twice, os, now);
    AdvanceTwice(p, once, now);
  }
}
