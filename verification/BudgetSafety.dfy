/** What every run of budget transactions keeps. */
module BudgetSafety {
  import opened Common
  import opened Sums
  import opened BudgetModel

  // ----- The shape of the book -----

  predicate Terminal(s: State) {
    s == Committed || s == Released || s == Cancelled || s == Expired || s == Refused
  }

  /** Conservation, and what each state says about the balances. */
  predicate RowOk(r: Reservation) {
    && r.requested >= 0 && r.reserved >= 0 && r.committed >= 0 && r.released >= 0 && r.generation >= 1
    && (r.state == Refused ==> r.reserved == r.committed == r.released == 0)
    && (r.state != Refused ==> r.requested == r.reserved + r.committed + r.released)
    && (Terminal(r.state) ==> r.reserved == 0)
    && (r.state == PartiallyCommitted ==> r.reserved > 0)
    && (r.state == Active ==> r.reserved == r.requested)
  }

  ghost predicate SameKey(r: Reservation, s: Reservation) {
    r.key == s.key && Primary(r.policies) == Primary(s.policies)
  }

  /** At most one reservation, refusals included, per idempotency key and first policy. */
  ghost predicate KeysUnique(b: Book) {
    forall i, j | i in b.rows && j in b.rows ::
      SameKey(b.rows[i], b.rows[j]) ==> i == j
  }

  predicate RowsOk(b: Book) {
    forall id :: id in b.rows ==> RowOk(b.rows[id]) && b.rows[id].policies <= b.policies.Keys
  }

  ghost predicate BookOk(b: Book) {
    RowsOk(b) && KeysUnique(b)
  }

  lemma MutatedRowOk(b: Book, kind: Kind, req: MutationRequest, now: Time)
    requires BookOk(b) && Takes(b, kind, req, now)
    ensures RowOk(Mutated(b.rows[req.id], kind, req))
  {}

  lemma ReserveKeepsBook(h: IdHash, b: Book, req: ReserveRequest)
    requires BookOk(b)
    ensures BookOk(ReserveStep(h, b, req))
  {}

  /** Rewriting rows without touching keys and policies keeps keys unique. */
  lemma RewriteKeepsBook(b: Book, c: Book)
    requires BookOk(b) && b.policies.Keys <= c.policies.Keys && c.rows.Keys == b.rows.Keys
    requires forall id :: id in b.rows ==>
      RowOk(c.rows[id]) && c.rows[id].key == b.rows[id].key && c.rows[id].policies == b.rows[id].policies
    ensures BookOk(c)
  {}

  lemma UpsertKeepsBook(b: Book, input: PolicyInput)
    requires BookOk(b)
    ensures BookOk(UpsertStep(b, input))
  {}

  lemma MutateKeepsBook(b: Book, kind: Kind, req: MutationRequest, now: Time)
    requires BookOk(b)
    ensures BookOk(MutateStep(b, kind, req, now))
  {
    if Takes(b, kind, req, now) {
      MutatedRowOk(b, kind, req, now);
      RewriteKeepsBook(b, MutateStep(b, kind, req, now));
    }
  }

  lemma ExpireKeepsBook(b: Book, now: Time)
    requires BookOk(b)
    ensures BookOk(ExpireStep(b, now))
  {
    forall id | id in b.rows ensures RowOk(ExpireRow(b.rows[id], now)) {}
    RewriteKeepsBook(b, ExpireStep(b, now));
  }

  lemma StepKeepsBook(h: IdHash, b: Book, op: Op)
    requires BookOk(b)
    ensures BookOk(Step(h, b, op))
  {
    match op
    case Upsert(input) => UpsertKeepsBook(b, input);
    case Reserve(req) => ReserveKeepsBook(h, b, req);
    case Mutate(kind, m, now) => MutateKeepsBook(b, kind, Trimmed(m), now);
    case ExpireStale(now) => ExpireKeepsBook(b, now);
  }

  /** Conservation, state shapes and key uniqueness hold after any run. */
  lemma {:induction false} RunKeepsBook(h: IdHash, b: Book, ops: seq<Op>)
    requires BookOk(b)
    ensures BookOk(Run(h, b, ops))
    decreases |ops|
  {
    if ops != [] {
      RunKeepsBook(h, b, ops[..|ops| - 1]);
      StepKeepsBook(h, Run(h, b, ops[..|ops| - 1]), ops[|ops| - 1]);
    }
  }

  lemma {:induction false} RunSplit(h: IdHash, b: Book, ops: seq<Op>, i: nat)
    requires i <= |ops|
    ensures Run(h, b, ops) == Run(h, Run(h, b, ops[..i]), ops[i..])
    decreases |ops|
  {
    if i == |ops| {
      assert ops[..i] == ops;
    } else {
      RunSplit(h, b, ops[..|ops| - 1], i);
      assert ops[..|ops| - 1][..i] == ops[..i];
      assert ops[i..][..|ops[i..]| - 1] == ops[..|ops| - 1][i..];
    }
  }

  // ----- A row's history -----

  /** The parts of a reservation that no transaction rewrites. */
  predicate SameIdentity(r: Reservation, s: Reservation) {
    r.key == s.key && r.fingerprint == s.fingerprint && r.policies == s.policies && r.requested == s.requested
  }

  predicate Changes(b: Book, c: Book, id: string) {
    id in b.rows && id in c.rows && b.rows[id] != c.rows[id]
  }

  /** Rows are never dropped; a changed row was open and moves up one generation. */
  lemma StepOnRow(h: IdHash, b: Book, op: Op, id: string)
    requires id in b.rows
    ensures var c := Step(h, b, op);
      && id in c.rows && SameIdentity(b.rows[id], c.rows[id])
      && c.rows[id].generation == b.rows[id].generation + (if Changes(b, c, id) then 1 else 0)
      && (Changes(b, c, id) ==> Open(b.rows[id]))
  {}

  ghost function ChangeCount(h: IdHash, b: Book, ops: seq<Op>, id: string): nat
    decreases |ops|
  {
    if ops == [] then 0
    else
      var before := Run(h, b, ops[..|ops| - 1]);
      ChangeCount(h, b, ops[..|ops| - 1], id) + if Changes(before, Run(h, b, ops), id) then 1 else 0
  }

  /** A reservation's generation is one more than the number of times it was changed. */
  lemma {:induction false} GenerationCountsChanges(h: IdHash, b: Book, ops: seq<Op>, id: string)
    requires id in Run(h, b, ops).rows
    ensures Run(h, b, ops).rows[id].generation
         == (if id in b.rows then b.rows[id].generation else 1) + ChangeCount(h, b, ops, id)
    decreases |ops|
  {
    if ops != [] {
      var before := Run(h, b, ops[..|ops| - 1]);
      if id in before.rows {
        GenerationCountsChanges(h, b, ops[..|ops| - 1], id);
        StepOnRow(h, before, ops[|ops| - 1], id);
      } else {
        AbsentMeansUnchanged(h, b, ops[..|ops| - 1], id);
      }
    }
  }

  lemma {:induction false} AbsentMeansUnchanged(h: IdHash, b: Book, ops: seq<Op>, id: string)
    requires id !in Run(h, b, ops).rows
    ensures id !in b.rows && ChangeCount(h, b, ops, id) == 0
    decreases |ops|
  {
    if ops != [] {
      var before := Run(h, b, ops[..|ops| - 1]);
      if id in before.rows {
        StepOnRow(h, before, ops[|ops| - 1], id);
      } else {
        AbsentMeansUnchanged(h, b, ops[..|ops| - 1], id);
      }
    }
  }

  lemma {:induction false} RunOnRow(h: IdHash, b: Book, ops: seq<Op>, id: string)
    requires id in b.rows
    ensures var c := Run(h, b, ops);
      && id in c.rows && SameIdentity(b.rows[id], c.rows[id]) && c.rows[id].generation >= b.rows[id].generation
    decreases |ops|
  {
    if ops != [] {
      RunOnRow(h, b, ops[..|ops| - 1], id);
      StepOnRow(h, Run(h, b, ops[..|ops| - 1]), ops[|ops| - 1], id);
    }
  }

  /** Two effective changes of a reservation never consume the same generation. */
  lemma GenerationConsumedOnce(h: IdHash, b: Book, ops: seq<Op>, i: nat, j: nat, id: string)
    requires i < j < |ops|
    requires Changes(Run(h, b, ops[..i]), Run(h, b, ops[..i + 1]), id)
    requires Changes(Run(h, b, ops[..j]), Run(h, b, ops[..j + 1]), id)
    ensures Run(h, b, ops[..i]).rows[id].generation < Run(h, b, ops[..j]).rows[id].generation
  {
    assert ops[..i + 1][..i] == ops[..i];
    StepOnRow(h, Run(h, b, ops[..i]), ops[i], id);
    RunSplit(h, b, ops[..j], i + 1);
    assert ops[..j][..i + 1] == ops[..i + 1];
    RunOnRow(h, Run(h, b, ops[..i + 1]), ops[..j][i + 1..], id);
  }

  /** Committed, released, cancelled, expired and refused reservations never change again. */
  lemma {:induction false} TerminalIsForever(h: IdHash, b: Book, ops: seq<Op>, id: string)
    requires id in b.rows && Terminal(b.rows[id].state)
    ensures id in Run(h, b, ops).rows && Run(h, b, ops).rows[id] == b.rows[id]
    decreases |ops|
  {
    if ops != [] {
      TerminalIsForever(h, b, ops[..|ops| - 1], id);
      StepOnRow(h, Run(h, b, ops[..|ops| - 1]), ops[|ops| - 1], id);
    }
  }

  // ----- Each mutation key takes effect at most once -----

  ghost predicate TakesEffect(h: IdHash, b: Book, op: Op, kind: Kind, id: string, key: string) {
    op.Mutate? && op.kind == kind && Trim(op.mutation.id) == id && Trim(op.mutation.key) == key && Step(h, b, op) != b
  }

  ghost function EffectCount(h: IdHash, b: Book, ops: seq<Op>, kind: Kind, id: string, key: string): nat
    decreases |ops|
  {
    if ops == [] then 0
    else
      var init := ops[..|ops| - 1];
      EffectCount(h, b, init, kind, id, key)
      + if TakesEffect(h, Run(h, b, init), ops[|ops| - 1], kind, id, key) then 1 else 0
  }

  lemma {:induction false} MutationKeyOnce(h: IdHash, b: Book, ops: seq<Op>, kind: Kind, id: string, key: string)
    ensures EffectCount(h, b, ops, kind, id, key)
         <= if MutationKey(kind, id, key) in Run(h, b, ops).events
               && MutationKey(kind, id, key) !in b.events then 1 else 0
    ensures b.events.Keys <= Run(h, b, ops).events.Keys
    decreases |ops|
  {
    if ops != [] {
      var init := ops[..|ops| - 1];
      MutationKeyOnce(h, b, init, kind, id, key);
      assert Run(h, b, init).events.Keys <= Run(h, b, ops).events.Keys;
    }
  }

  /** Sending an effective mutation again with the generation it was fenced with is
      rejected as stale; with the new generation it is answered as a replay.
      Neither changes the book. */
  lemma RepeatedMutation(b: Book, kind: Kind, req: MutationRequest, now: Time, later: Time)
    requires Takes(b, kind, req, now)
    ensures var c := MutateStep(b, kind, req, now);
      var renewed := req.(generation := req.generation + 1);
      && MutateAnswer(c, kind, req, later) == Failed(LeaseExpired)
      && MutateAnswer(c, kind, renewed, later) == Done(Mutated(b.rows[req.id], kind, req), true)
      && MutateStep(c, kind, req, later) == MutateStep(c, kind, renewed, later) == c
  {}

  // ----- Hard ceilings -----

  lemma UseAfterReserve(h: IdHash, b: Book, req: ReserveRequest, p: PolicyId)
    requires BookOk(b)
    ensures var c := ReserveStep(h, b, req);
      Used(c, p) == Used(b, p)
        + (if c != b && Refusal(b, req).None? && p in Applicable(b, req) then req.value else 0)
  {
    var c := ReserveStep(h, b, req);
    if c != b {
      var row := c.rows[NewId(h, b, req)];
      TotalPut(b.rows, ReservedFor(p), NewId(h, b, req), row);
      TotalPut(b.rows, CommittedFor(p), NewId(h, b, req), row);
    }
  }

  lemma UseAfterMutate(b: Book, kind: Kind, req: MutationRequest, now: Time, p: PolicyId)
    requires BookOk(b)
    ensures Used(MutateStep(b, kind, req, now), p) <= Used(b, p)
  {
    if Takes(b, kind, req, now) {
      var next := Mutated(b.rows[req.id], kind, req);
      assert RowOk(b.rows[req.id]);
      TotalPut(b.rows, ReservedFor(p), req.id, next);
      TotalPut(b.rows, CommittedFor(p), req.id, next);
    }
  }

  lemma UseAfterExpire(b: Book, now: Time, p: PolicyId)
    requires BookOk(b)
    ensures Used(ExpireStep(b, now), p) <= Used(b, p)
  {
    var after := ExpireStep(b, now).rows;
    forall id | id in b.rows ensures ReservedFor(p)(after[id]) <= ReservedFor(p)(b.rows[id])
      && CommittedFor(p)(after[id]) == CommittedFor(p)(b.rows[id]) {
      assert RowOk(b.rows[id]) && after[id] == ExpireRow(b.rows[id], now);
    }
    TotalMonotone(b.rows, after, ReservedFor(p));
    TotalMonotone(b.rows, after, CommittedFor(p));
  }

  /** Committing moves use from reserved to committed; nothing but Reserve adds use. */
  lemma UseNeverGrowsElsewhere(h: IdHash, b: Book, op: Op, p: PolicyId)
    requires BookOk(b) && !op.Reserve?
    ensures Used(Step(h, b, op), p) <= Used(b, p)
  {
    match op
    case Upsert(input) =>
    case Mutate(kind, m, now) => UseAfterMutate(b, kind, Trimmed(m), now, p);
    case ExpireStale(now) => UseAfterExpire(b, now, p);
  }

  /** No transaction raises a hard policy's use above the ceiling it has afterwards. */
  lemma StepNeverOvershoots(h: IdHash, b: Book, op: Op, p: PolicyId)
    requires BookOk(b)
    requires p in Step(h, b, op).policies && Step(h, b, op).policies[p].mode.Hard?
    ensures var c := Step(h, b, op);
      Used(c, p) > Used(b, p) ==> Used(c, p) <= c.policies[p].ceiling
  {
    if op.Reserve? {
      UseAfterReserve(h, b, op.req, p);
      if Step(h, b, op) != b && Refusal(b, op.req).None? && p in Applicable(b, op.req) {
        assert p !in Blocking(b, op.req);
      }
    } else {
      UseNeverGrowsElsewhere(h, b, op, p);
    }
  }

  ghost predicate HardBounded(b: Book) {
    forall p :: p in b.policies && b.policies[p].mode.Hard? ==> Used(b, p) <= b.policies[p].ceiling
  }

  lemma UnlistedPolicyUnused(b: Book, p: PolicyId)
    requires BookOk(b) && p !in b.policies
    ensures Used(b, p) == 0
  {
    var none := map id | id in b.rows :: b.rows[id].(reserved := 0, committed := 0, policies := {});
    TotalMonotone(b.rows, none, ReservedFor(p));
    TotalMonotone(none, b.rows, ReservedFor(p));
    TotalMonotone(b.rows, none, CommittedFor(p));
    TotalMonotone(none, b.rows, CommittedFor(p));
    AllZero(none, ReservedFor(p));
    AllZero(none, CommittedFor(p));
  }

  lemma {:induction false} AllZero(rows: map<string, Reservation>, w: Reservation -> int)
    requires forall id :: id in rows ==> w(rows[id]) == 0
    ensures Total(rows, w) == 0
    decreases |rows|
  {
    if rows != map[] {
      var k :| k in rows;
      TotalSplit(rows, w, k);
      AllZero(rows - {k}, w);
    }
  }

  /** An upsert keeps the hard bounds exactly when it does not put a hard ceiling
      below what is already in use. */
  lemma UpsertKeepsHardBoundIff(b: Book, input: PolicyInput)
    requires BookOk(b) && HardBounded(b)
    ensures HardBounded(UpsertStep(b, input))
      <==> !(UpsertAccepted(b, input) && input.mode.Hard? && input.ceiling < Used(b, input.id))
  {
    var c := UpsertStep(b, input);
    if UpsertAccepted(b, input) {
      assert c.policies[input.id].mode == input.mode && c.policies[input.id].ceiling == input.ceiling;
      assert Used(c, input.id) == Used(b, input.id);
      forall p | p in c.policies && p != input.id ensures c.policies[p] == b.policies[p] && Used(c, p) == Used(b, p) {}
    }
  }

  /** No upsert of the run lowers a hard ceiling or switches the mode of a policy. */
  ghost predicate NeverTightens(h: IdHash, b: Book, ops: seq<Op>) {
    forall i :: 0 <= i < |ops| ==> Loosens(Run(h, b, ops[..i]), ops[i])
  }

  predicate Loosens(b: Book, op: Op) {
    op.Upsert? && op.input.id in b.policies ==>
      var known := b.policies[op.input.id];
      op.input.mode == known.mode && (known.mode.Hard? ==> known.ceiling <= op.input.ceiling)
  }

  /** In such a run every hard policy, at every level of every scope chain, stays
      within its ceiling. */
  lemma {:induction false} RunKeepsHardBound(h: IdHash, b: Book, ops: seq<Op>)
    requires BookOk(b) && HardBounded(b) && NeverTightens(h, b, ops)
    ensures HardBounded(Run(h, b, ops))
    decreases |ops|
  {
    if ops != [] {
      var init, op := ops[..|ops| - 1], ops[|ops| - 1];
      forall i | 0 <= i < |init| ensures Loosens(Run(h, b, init[..i]), init[i]) {
        assert init[..i] == ops[..i];
      }
      RunKeepsHardBound(h, b, init);
      RunKeepsBook(h, b, init);
      var c := Run(h, b, init);
      assert Loosens(c, op);
      if op.Upsert? {
        if op.input.id !in c.policies {
          UnlistedPolicyUnused(c, op.input.id);
        }
        UpsertKeepsHardBoundIff(c, op.input);
      } else {
        forall p | p in Step(h, c, op).policies && Step(h, c, op).policies[p].mode.Hard?
          ensures Used(Step(h, c, op), p) <= Step(h, c, op).policies[p].ceiling {
          StepNeverOvershoots(h, c, op, p);
        }
      }
    }
  }

  // ----- Idempotent reservation -----

  lemma KnownForever(h: IdHash, b: Book, ops: seq<Op>, key: string, primary: Option<PolicyId>)
    requires Known(b, key, primary)
    ensures Known(Run(h, b, ops), key, primary)
  {
    var id :| id in b.rows && HasKey(b.rows[id], key, primary);
    RunOnRow(h, b, ops, id);
    assert HasKey(Run(h, b, ops).rows[id], key, primary);
  }

  /** Once a key was used, granted or refused, no later request with that key adds
      anything as long as it resolves to the same first policy. */
  lemma RepeatedReserveAddsNothing(h: IdHash, b: Book, req: ReserveRequest, ops: seq<Op>, again: ReserveRequest)
    requires ReserveStep(h, b, req) != b && again.key == req.key
    requires var c := Run(h, ReserveStep(h, b, req), ops);
      Primary(Applicable(c, again)) == Primary(Applicable(b, req))
    ensures var c := Run(h, ReserveStep(h, b, req), ops);
      ReserveStep(h, c, again) == c
  {
    var b1 := ReserveStep(h, b, req);
    assert HasKey(b1.rows[NewId(h, b, req)], req.key, Primary(Applicable(b, req)));
    KnownForever(h, b1, ops, req.key, Primary(Applicable(b, req)));
  }

  /** A used key is forgotten by a new policy exactly when that policy applies to the
      request and sorts before the policies that applied so far. */
  lemma NewPolicyForgetsKeyIff(b: Book, input: PolicyInput, req: ReserveRequest)
    requires Known(b, req.key, Primary(Applicable(b, req)))
    requires UpsertAccepted(b, input) && input.id !in b.policies
    requires !Known(b, req.key, Some(input.id))
    ensures var c := UpsertStep(b, input);
      !Known(c, req.key, Primary(Applicable(c, req)))
      <==> Matches(c.policies[input.id], req) && forall p :: p in Applicable(b, req) ==> input.id < p
  {
    var c := UpsertStep(b, input);
    var before, after := Applicable(b, req), Applicable(c, req);
    if Matches(c.policies[input.id], req) {
      assert after == before + {input.id};
      if forall p :: p in before ==> input.id < p {
        assert Primary(after) == Some(input.id);
      } else {
        assert Least(after) == Least(before);
      }
    } else {
      assert after == before;
    }
    assert forall primary :: Known(c, req.key, primary) == Known(b, req.key, primary);
  }

  lemma ReserveTakesIff(h: IdHash, b: Book, req: ReserveRequest)
    ensures ReserveStep(h, b, req) != b
      <==> RequestWellFormed(req) && !Known(b, req.key, Primary(Applicable(b, req))) && NewId(h, b, req) !in b.rows
  {}

  /** After a new policy the same request is reserved a second time exactly when it is well
      formed, the policy applies and sorts before the ones that applied, and the identifier
      allocated under the new first policy is free. */
  lemma NewPolicyReservesAgainIff(h: IdHash, b: Book, input: PolicyInput, req: ReserveRequest)
    requires Known(b, req.key, Primary(Applicable(b, req)))
    requires UpsertAccepted(b, input) && input.id !in b.policies
    requires !Known(b, req.key, Some(input.id))
    ensures var c := UpsertStep(b, input);
      ReserveStep(h, c, req) != c
      <==> RequestWellFormed(req) && Matches(c.policies[input.id], req)
           && (forall p :: p in Applicable(b, req) ==> input.id < p) && NewId(h, c, req) !in c.rows
  {
    NewPolicyForgetsKeyIff(b, input, req);
    ReserveTakesIff(h, UpsertStep(b, input), req);
  }

  // ----- A reservation of nothing -----

  predicate NotBefore(op: Op, t: Time) {
    match op
    case Mutate(_, _, now) => now >= t
    case ExpireStale(now) => now >= t
    case _ => true
  }

  /** A lapsed reservation without balance can neither be mutated nor expired. */
  lemma {:induction false} LapsedEmptyIsStuck(h: IdHash, b: Book, ops: seq<Op>, id: string)
    requires id in b.rows && b.rows[id].reserved == 0
    requires forall i :: 0 <= i < |ops| ==> NotBefore(ops[i], b.rows[id].lease)
    ensures id in Run(h, b, ops).rows && Run(h, b, ops).rows[id] == b.rows[id]
    decreases |ops|
  {
    if ops != [] {
      LapsedEmptyIsStuck(h, b, ops[..|ops| - 1], id);
      assert NotBefore(ops[|ops| - 1], b.rows[id].lease);
    }
  }

  predicate AllNotBefore(ops: seq<Op>, t: Time) {
    forall i :: 0 <= i < |ops| ==> NotBefore(ops[i], t)
  }

  ghost predicate Untouched(h: IdHash, b: Book, ops: seq<Op>, id: string)
    requires id in b.rows
  {
    id in Run(h, b, ops).rows && Run(h, b, ops).rows[id] == b.rows[id]
  }

  /** Once its lease has lapsed, an open reservation is left as it is by every run exactly if
      it has no balance; any other is settled by the next expiry. */
  lemma LapsedStuckIff(h: IdHash, b: Book, id: string)
    requires BookOk(b) && id in b.rows && Open(b.rows[id])
    ensures (forall ops :: AllNotBefore(ops, b.rows[id].lease) ==> Untouched(h, b, ops, id)) <==> b.rows[id].reserved == 0
  {
    var r := b.rows[id];
    assert RowOk(r);
    if r.reserved == 0 {
      forall ops | AllNotBefore(ops, r.lease) ensures Untouched(h, b, ops, id) {
        LapsedEmptyIsStuck(h, b, ops, id);
      }
    } else {
      var ops := [ExpireStale(r.lease)];
      assert ops[..0] == [] && Run(h, b, []) == b;
      assert Run(h, b, ops) == ExpireStep(b, r.lease);
      assert Run(h, b, ops).rows[id] == ExpiredRow(r);
      assert AllNotBefore(ops, r.lease) && !Untouched(h, b, ops, id);
    }
  }
}
