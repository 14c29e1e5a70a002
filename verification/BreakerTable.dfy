/** The table of stored breakers over any sequence of derivations and lease requests: each
    breaker in it is a run of single acts, so what is proved of runs holds of the table. */
module BreakerTable {
  import opened BreakerModel
  import opened BreakerReplay
  import opened BreakerEpisodes

  // ----- The feed -----

  function IdsOf(os: seq<Observation>): set<nat>
    decreases |os|
  {
    if os == [] then {} else IdsOf(os[..|os| - 1]) + {os[|os| - 1].id}
  }

  /** The first observation of each identifier. */
  function DedupeOf(os: seq<Observation>): seq<Observation>
    decreases |os|
  {
    if os == [] then []
    else
      var init, last := os[..|os| - 1], os[|os| - 1];
      DedupeOf(init) + if last.id in IdsOf(init) then [] else [last]
  }

  function Insert(s: seq<Observation>, o: Observation): (r: seq<Observation>)
    ensures multiset(r) == multiset(s) + multiset{o}
  {
    if s == [] then [o]
    else if NotAfter(s[|s| - 1], o) then s + [o]
    else
      assert s == s[..|s| - 1] + [s[|s| - 1]];
      Insert(s[..|s| - 1], o) + [s[|s| - 1]]
  }

  function SortedOf(os: seq<Observation>): seq<Observation>
    decreases |os|
  {
    if os == [] then [] else Insert(SortedOf(os[..|os| - 1]), os[|os| - 1])
  }

  /** What is folded: the feed without repetitions, in order. */
  function Prepared(os: seq<Observation>): seq<Observation> {
    SortedOf(DedupeOf(os))
  }

  // ----- The acts of a derivation on one breaker -----

  /** The observation is a failure that is filed under `k`. */
  predicate Feeds(k: Key, o: Observation) {
    !IsSuccess(o) && Route(o).Some? && RouteKey(o) == k
  }

  predicate Heals(k: Key, o: Observation) {
    IsSuccess(o) && ScopeMatches(k.scope, o)
  }

  function NextActs(k: Key, alive: bool, acts: seq<Act>, o: Observation, now: Time): seq<Act> {
    if Feeds(k, o) then acts + [Observe(o, Route(o).value.1, now)]
    else if Heals(k, o) && alive then acts + [Observe(o, Success, now)]
    else acts
  }

  /** The observations that concern `k`, in order; a success concerns only a breaker that exists. */
  function FeedActs(k: Key, alive: bool, os: seq<Observation>, now: Time): seq<Act>
    decreases |os|
  {
    if os == [] then []
    else
      var acts := FeedActs(k, alive, os[..|os| - 1], now);
      NextActs(k, alive || acts != [], acts, os[|os| - 1], now)
  }

  function DeriveActs(k: Key, alive: bool, os: seq<Observation>, now: Time): seq<Act> {
    (if alive then [Advance(now)] else []) + FeedActs(k, alive, os, now)
  }

  /** The breaker the acts start from: the stored one, or a fresh one with the first failure's reason. */
  function Start(m: Table, k: Key, acts: seq<Act>): Breaker {
    if k in m then m[k]
    else Fresh(k, if acts != [] && acts[0].Observe? then acts[0].o.reason else "")
  }

  /** The table holds under `k` what the acts make of the breaker they start from. */
  predicate Follows(p: Policy, m: Table, acts: seq<Act>, n: Table, k: Key) {
    && (k in n <==> k in m || acts != [])
    && (k in n ==> n[k] == Run(p, Start(m, k, acts), acts))
  }

  lemma RunNext(p: Policy, b: Breaker, acts: seq<Act>, a: Act)
    ensures Run(p, b, acts + [a]) == Do(p, Run(p, b, acts), a)
  {
    assert (acts + [a])[..|acts|] == acts;
  }

  lemma RunOne(p: Policy, b: Breaker, a: Act)
    ensures Run(p, b, [a]) == Do(p, b, a)
  {
    assert [a][..0] == [] && Run(p, b, []) == b;
  }

  /** What one observation does to the breaker under `k`. */
  lemma FoldOneOnKey(p: Policy, m: Table, o: Observation, now: Time, k: Key)
    requires KeysOk(m)
    ensures var n := FoldOne(p, m, o, now);
      && (k in n <==> k in m || Feeds(k, o))
      && (Feeds(k, o) ==> n[k] == ApplyEvent(p, if k in m then m[k] else Fresh(k, o.reason), o, Route(o).value.1, now))
      && (!Feeds(k, o) && k in m ==> n[k] == if Heals(k, o) then ApplyEvent(p, m[k], o, Success, now) else m[k])
  {}

  lemma FoldOneFollows(p: Policy, m: Table, acts: seq<Act>, here: Table, o: Observation, now: Time, k: Key)
    requires KeysOk(here) && Follows(p, m, acts, here, k)
    ensures Follows(p, m, NextActs(k, k in here, acts, o, now), FoldOne(p, here, o, now), k)
  {
    FoldOneOnKey(p, here, o, now, k);
    if Feeds(k, o) {
      var a := Observe(o, Route(o).value.1, now);
      RunNext(p, Start(m, k, acts + [a]), acts, a);
      if k !in here {
        assert acts + [a] == [a] && Run(p, Start(m, k, [a]), []) == Fresh(k, o.reason);
      } else {
        assert Start(m, k, acts + [a]) == Start(m, k, acts);
      }
    } else if Heals(k, o) && k in here {
      RunNext(p, Start(m, k, acts), acts, Observe(o, Success, now));
      assert Start(m, k, acts + [Observe(o, Success, now)]) == Start(m, k, acts);
    }
  }

  lemma {:induction false} FoldFollows(p: Policy, m: Table, os: seq<Observation>, now: Time, k: Key)
    requires KeysOk(m)
    ensures KeysOk(Fold(p, m, os, now)) && Follows(p, m, FeedActs(k, k in m, os, now), Fold(p, m, os, now), k)
    decreases |os|
  {
    if os != [] {
      var init, last := os[..|os| - 1], os[|os| - 1];
      FoldFollows(p, m, init, now, k);
      var here := Fold(p, m, init, now);
      FoldOneKeys(p, here, last, now);
      FoldOneFollows(p, m, FeedActs(k, k in m, init, now), here, last, now, k);
    }
  }

  /** Deriving the table is, for each breaker, a run: the cooldown advance and then exactly the
      observations that concern it, in order. */
  lemma DeriveIsRun(p: Policy, m: Table, os: seq<Observation>, now: Time, k: Key)
    requires KeysOk(m)
    ensures KeysOk(Derive(p, m, os, now)) && Follows(p, m, DeriveActs(k, k in m, os, now), Derive(p, m, os, now), k)
  {
    var start, acts := AdvanceAll(p, m, now), FeedActs(k, k in m, os, now);
    FoldFollows(p, start, os, now, k);
    if k in m {
      RunConcat(p, m[k], [Advance(now)], acts);
      RunOne(p, m[k], Advance(now));
    } else {
      assert DeriveActs(k, false, os, now) == acts;
    }
  }

  // ----- Runs of the store -----

  datatype Op =
    | Refresh(os: seq<Observation>, now: Time)
    | AcquireLease(key: Key, owner: string, now: Time)

  function Step(p: Policy, m: Table, op: Op): Table {
    match op
    case Refresh(os, now) => Derive(p, m, Prepared(os), now)
    case AcquireLease(key, owner, now) => if key in m then m[key := AcquireStep(p, m[key], owner, now)] else m
  }

  /** The table after a sequence of operations. */
  function Stored(p: Policy, m: Table, ops: seq<Op>): Table
    decreases |ops|
  {
    if ops == [] then m else Step(p, Stored(p, m, ops[..|ops| - 1]), ops[|ops| - 1])
  }

  function OpActs(k: Key, alive: bool, op: Op): seq<Act> {
    match op
    case Refresh(os, now) => DeriveActs(k, alive, Prepared(os), now)
    case AcquireLease(key, owner, now) => if key == k && alive then [Acquire(owner, now)] else []
  }

  /** The advances, the observations that concern `k` and its acquisitions, in order. */
  function Acts(k: Key, alive: bool, ops: seq<Op>): seq<Act>
    decreases |ops|
  {
    if ops == [] then []
    else
      var acts := Acts(k, alive, ops[..|ops| - 1]);
      acts + OpActs(k, alive || acts != [], ops[|ops| - 1])
  }

  lemma AcquireFollows(p: Policy, m: Table, key: Key, owner: string, now: Time, k: Key)
    requires KeysOk(m) && key in m
    ensures var n := m[key := AcquireStep(p, m[key], owner, now)];
      KeysOk(n) && Follows(p, m, if key == k then [Acquire(owner, now)] else [], n, k)
  {
    var a := Acquire(owner, now);
    assert AcquireStep(p, m[key], owner, now).key == key;
    if key == k {
      RunOne(p, m[k], a);
      assert Start(m, k, [a]) == m[k];
    }
  }

  lemma StepFollows(p: Policy, m: Table, op: Op, k: Key)
    requires KeysOk(m)
    ensures KeysOk(Step(p, m, op)) && Follows(p, m, OpActs(k, k in m, op), Step(p, m, op), k)
  {
    match op
    case Refresh(os, now) => DeriveIsRun(p, m, Prepared(os), now, k);
    case AcquireLease(key, owner, now) =>
      if key in m {
        AcquireFollows(p, m, key, owner, now, k);
      }
  }

  lemma FollowsOn(p: Policy, m: Table, acts: seq<Act>, here: Table, more: seq<Act>, next: Table, k: Key)
    requires Follows(p, m, acts, here, k) && Follows(p, here, more, next, k)
    ensures Follows(p, m, acts + more, next, k)
  {
    if k in here {
      RunConcat(p, Start(m, k, acts), acts, more);
    } else {
      assert acts + more == more;
    }
  }

  /** Over any sequence of derivations and lease requests, the table holds for each key the run
      of the acts above: nothing else ever touches a breaker. */
  lemma {:induction false} StoredIsRun(p: Policy, m: Table, ops: seq<Op>, k: Key)
    requires KeysOk(m)
    ensures KeysOk(Stored(p, m, ops)) && Follows(p, m, Acts(k, k in m, ops), Stored(p, m, ops), k)
    decreases |ops|
  {
    if ops != [] {
      var init, last := ops[..|ops| - 1], ops[|ops| - 1];
      var here := Stored(p, m, init);
      StoredIsRun(p, m, init, k);
      StepFollows(p, here, last, k);
      FollowsOn(p, m, Acts(k, k in m, init), here, OpActs(k, k in here, last), Step(p, here, last), k);
    }
  }

  // ----- What that says about every stored breaker -----

  /** A stored breaker that is closed has fewer failures than the threshold. */
  lemma StoredBelowThreshold(p: Policy, m: Table, ops: seq<Op>, k: Key)
    requires PolicyOk(p) && KeysOk(m) && k in Stored(p, m, ops) && (k in m ==> BelowThreshold(p, m[k]))
    ensures BelowThreshold(p, Stored(p, m, ops)[k])
  {
    StoredIsRun(p, m, ops, k);
    ClosedBelowThreshold(p, Start(m, k, Acts(k, k in m, ops)), Acts(k, k in m, ops));
  }

  /** A stored breaker that is half-open is in an episode that an elapsed cooldown began, in
      which no failure was applied and at most the budgeted number of leases was granted. */
  lemma StoredProbeBudget(p: Policy, m: Table, ops: seq<Op>, k: Key) returns (i: nat)
    requires PolicyOk(p) && KeysOk(m) && (k in m ==> m[k].state != HalfOpen)
    requires k in Stored(p, m, ops) && Stored(p, m, ops)[k].state == HalfOpen
    ensures var acts := Acts(k, k in m, ops);
      i < |acts| && CountedEpisode(p, Start(m, k, acts), acts, i, |acts|)
  {
    var acts := Acts(k, k in m, ops);
    StoredIsRun(p, m, ops, k);
    assert acts[..|acts|] == acts;
    i := HalfOpenEpisode(p, Start(m, k, acts), acts, |acts|);
  }

  lemma {:induction false} LastClosing(p: Policy, b: Breaker, acts: seq<Act>, n: nat) returns (i: nat)
    requires n <= |acts| && b.state != Closed && At(p, b, acts, n).state == Closed
    ensures i < n && At(p, b, acts, i).state != Closed && At(p, b, acts, i + 1).state == Closed
    decreases n
  {
    assert acts[..0] == [];
    if At(p, b, acts, n - 1).state == Closed {
      i := LastClosing(p, b, acts, n - 1);
    } else {
      i := n - 1;
    }
  }

  /** A stored breaker that was open and is closed has, on the way, waited out its cooldown and
      then succeeded as often as required in one half-open episode without a failure. */
  lemma StoredRecovery(p: Policy, m: Table, ops: seq<Op>, k: Key) returns (i: nat, n: nat)
    requires PolicyOk(p) && KeysOk(m) && k in m && m[k].state == Open
    requires k in Stored(p, m, ops) && Stored(p, m, ops)[k].state == Closed
    ensures var acts := Acts(k, true, ops);
      && i < n < |acts| && Episode(p, m[k], acts, i, n) && Successes(p, m[k], acts, i + 1, n + 1) >= p.required
      && At(p, m[k], acts, n + 1).state == Closed
  {
    var acts := Acts(k, true, ops);
    StoredIsRun(p, m, ops, k);
    assert acts[..|acts|] == acts;
    n := LastClosing(p, m[k], acts, |acts|);
    i := RecoveryPath(p, m[k], acts, n);
  }

  /** The lease generation of a stored breaker has counted its grants from the start. */
  lemma StoredLeaseGeneration(p: Policy, m: Table, ops: seq<Op>, k: Key)
    requires KeysOk(m) && k in Stored(p, m, ops)
    ensures var acts := Acts(k, k in m, ops);
      Stored(p, m, ops)[k].leaseGeneration
      == (if k in m then m[k].leaseGeneration else 0) + GrantCount(p, Start(m, k, acts), acts, 0, |acts|)
  {
    var acts := Acts(k, k in m, ops);
    StoredIsRun(p, m, ops, k);
    assert acts[..|acts|] == acts;
    LeaseGenerationCountsGrants(p, Start(m, k, acts), acts, |acts|);
  }
}
