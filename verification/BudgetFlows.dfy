/** Where budget goes: what each transaction moves between reserved, committed and released,
    said in terms of the request and the sums, and added up over runs. */
module BudgetFlows {
  import opened Common
  import opened Sums
  import opened BudgetModel
  import opened BudgetSafety

  // ----- Mutations -----

  /** A mutation takes effect if it names a reservation and carries a key not used for this
      kind and reservation before, is fenced with the current generation, finds the reservation
      open and its lease running, asks for no more than the balance, and, to renew, for a lease
      in the future. */
  lemma TakesIff(b: Book, kind: Kind, req: MutationRequest, now: Time)
    ensures Takes(b, kind, req, now) <==>
      && req.id != "" && req.key != "" && MutationKey(kind, req.id, req.key) !in b.events
      && req.id in b.rows && req.generation == b.rows[req.id].generation
      && (b.rows[req.id].state == Active || b.rows[req.id].state == PartiallyCommitted)
      && now < b.rows[req.id].lease && (req.value == 0 || 0 < req.value <= b.rows[req.id].reserved)
      && (kind == Renew ==> req.lease.Some? && now < req.lease.value)
  {}

  /** The amount a mutation moves: nothing asked for means the whole balance. */
  function Moved(r: Reservation, req: MutationRequest): int {
    if req.value == 0 then r.reserved else req.value
  }

  /** What an effective mutation does to its own row. */
  lemma MutationOnRow(b: Book, kind: Kind, req: MutationRequest, now: Time)
    requires Takes(b, kind, req, now)
    ensures var r, s, v := b.rows[req.id], MutateStep(b, kind, req, now).rows[req.id], Moved(b.rows[req.id], req);
      && s.generation == r.generation + 1
      && s.lease == (if kind == Renew then req.lease.value else r.lease)
      && s.committed == r.committed + (if kind == Commit then v else 0)
      && s.released == r.released + (if kind == Release || kind == Cancel then v else 0)
      && s.reserved == r.reserved - (if kind == Renew then 0 else v)
      && (kind == Renew ==> s.state == r.state)
      && (kind != Renew && s.reserved != 0 ==> s.state == PartiallyCommitted)
      && (kind == Commit && s.reserved == 0 ==> s.state == Committed)
      && (kind == Release && s.reserved == 0 ==> s.state == Released)
      && (kind == Cancel && s.reserved == 0 ==> s.state == Cancelled)
  {}

  /** What it does to the sums: a Commit moves the amount from reserved to committed in every
      policy the reservation counts against, Release and Cancel give it back, Renew moves nothing;
      all other rows and policies stay as they are. */
  lemma MutationMoves(b: Book, kind: Kind, req: MutationRequest, now: Time, p: PolicyId)
    requires Takes(b, kind, req, now)
    ensures var c, v := MutateStep(b, kind, req, now), if p in b.rows[req.id].policies then Moved(b.rows[req.id], req) else 0;
      && Spent(c.rows, p) == Spent(b.rows, p) + (if kind == Commit then v else 0)
      && Reserved(c.rows, p) == Reserved(b.rows, p) - (if kind == Renew then 0 else v)
      && c.policies == b.policies && c.rows.Keys == b.rows.Keys
      && (forall id :: id in b.rows && id != req.id ==> c.rows[id] == b.rows[id])
  {
    MutationOnRow(b, kind, req, now);
    var next := MutateStep(b, kind, req, now).rows[req.id];
    TotalPut(b.rows, ReservedFor(p), req.id, next);
    TotalPut(b.rows, CommittedFor(p), req.id, next);
  }

  /** What the caller of a mutation is told. */
  lemma MutationAnswer(b: Book, kind: Kind, req: MutationRequest, now: Time)
    ensures var out, k := MutateAnswer(b, kind, req, now), MutationKey(kind, req.id, req.key);
      var known := req.id != "" && req.key != "" && req.value >= 0 && k in b.events;
      && (out.Done? && !out.replay <==> Takes(b, kind, req, now))
      && (Takes(b, kind, req, now) ==> out.row == MutateStep(b, kind, req, now).rows[req.id])
      && (out == Failed(DuplicateReplay) <==> known && b.events[k].Some? && b.events[k].value != (kind, req.(generation := 0)))
      && (out.Done? && out.replay ==> known && req.id in b.rows && out.row == b.rows[req.id]
                                      && req.generation == b.rows[req.id].generation)
      && !out.Declined?
  {}

  /** Stale is what has another generation, a lease that is over, or no lease to renew to; every
      other fault is a conflict of state. */
  lemma MutationFaults(b: Book, kind: Kind, req: MutationRequest, now: Time)
    requires MutationKey(kind, req.id, req.key) !in b.events
    ensures var out := MutateAnswer(b, kind, req, now);
      var named := req.id != "" && req.key != "" && req.value >= 0 && req.id in b.rows;
      && (out.Failed? ==> out.error == LeaseExpired || out.error == StateConflict)
      && (out == Failed(LeaseExpired) <==>
            named && var r := b.rows[req.id];
            || req.generation != r.generation
            || (kind == Renew && req.lease.None?)
            || ((r.state == Active || r.state == PartiallyCommitted)
                && (r.lease <= now || ((req.value == 0 || req.value <= r.reserved) && kind == Renew && req.lease.value <= now))))
  {}

  /** What is remembered of an effective mutation: the request without its generation. */
  lemma MutationLogged(b: Book, kind: Kind, req: MutationRequest, now: Time)
    requires Takes(b, kind, req, now)
    ensures MutateStep(b, kind, req, now).events == b.events[MutationKey(kind, req.id, req.key) := Some((kind, req.(generation := 0)))]
  {}

  /** Expiry settles exactly the open reservations whose lease is over and that have a balance. */
  lemma ExpiryOnRow(b: Book, now: Time, id: string)
    requires id in b.rows
    ensures var r, c := b.rows[id], ExpireStep(b, now);
      var due := (r.state == Active || r.state == PartiallyCommitted) && r.lease <= now && r.reserved > 0;
      && c.rows.Keys == b.rows.Keys && c.policies == b.policies
      && c.rows[id] == (if due then r.(state := Expired, reserved := 0, released := r.released + r.reserved, generation := r.generation + 1)
                        else r)
      && (due ==> ExpireKey(id, r.generation + 1) in c.events)
  {}

  // ----- Added up over runs -----

  /** The amount an operation commits of the reservation `id`. */
  function CommittedBy(b: Book, op: Op, id: string): int {
    if op.Mutate? && op.kind == Commit && Trim(op.mutation.id) == id && Takes(b, Commit, Trimmed(op.mutation), op.now)
    then Moved(b.rows[id], op.mutation) else 0
  }

  /** The amount an operation gives back: a Release, a Cancel, or the expiry of what is left. */
  function ReleasedBy(b: Book, op: Op, id: string): int {
    match op
    case Mutate(kind, m, now) =>
      if (kind == Release || kind == Cancel) && Trim(m.id) == id && Takes(b, kind, Trimmed(m), now)
      then Moved(b.rows[id], m) else 0
    case ExpireStale(now) =>
      if id in b.rows && (b.rows[id].state == Active || b.rows[id].state == PartiallyCommitted)
         && b.rows[id].lease <= now && b.rows[id].reserved > 0
      then b.rows[id].reserved else 0
    case _ => 0
  }

  ghost function CommittedIn(h: IdHash, b: Book, ops: seq<Op>, id: string): int
    decreases |ops|
  {
    if ops == [] then 0
    else CommittedIn(h, b, ops[..|ops| - 1], id) + CommittedBy(Run(h, b, ops[..|ops| - 1]), ops[|ops| - 1], id)
  }

  ghost function ReleasedIn(h: IdHash, b: Book, ops: seq<Op>, id: string): int
    decreases |ops|
  {
    if ops == [] then 0
    else ReleasedIn(h, b, ops[..|ops| - 1], id) + ReleasedBy(Run(h, b, ops[..|ops| - 1]), ops[|ops| - 1], id)
  }

  function CommittedOf(b: Book, id: string): int {
    if id in b.rows then b.rows[id].committed else 0
  }

  function ReleasedOf(b: Book, id: string): int {
    if id in b.rows then b.rows[id].released else 0
  }

  lemma MutateFlow(h: IdHash, b: Book, op: Op, id: string)
    requires op.Mutate?
    ensures CommittedOf(Step(h, b, op), id) == CommittedOf(b, id) + CommittedBy(b, op, id)
    ensures ReleasedOf(Step(h, b, op), id) == ReleasedOf(b, id) + ReleasedBy(b, op, id)
  {
    if Takes(b, op.kind, Trimmed(op.mutation), op.now) {
      MutationOnRow(b, op.kind, Trimmed(op.mutation), op.now);
    }
  }

  lemma ExpireFlow(h: IdHash, b: Book, op: Op, id: string)
    requires op.ExpireStale?
    ensures CommittedOf(Step(h, b, op), id) == CommittedOf(b, id) + CommittedBy(b, op, id)
    ensures ReleasedOf(Step(h, b, op), id) == ReleasedOf(b, id) + ReleasedBy(b, op, id)
  {
    if id in b.rows {
      assert Step(h, b, op).rows[id] == ExpireRow(b.rows[id], op.now);
    }
  }

  lemma StepFlow(h: IdHash, b: Book, op: Op, id: string)
    ensures CommittedOf(Step(h, b, op), id) == CommittedOf(b, id) + CommittedBy(b, op, id)
    ensures ReleasedOf(Step(h, b, op), id) == ReleasedOf(b, id) + ReleasedBy(b, op, id)
  {
    match op
    case Mutate(_, _, _) => MutateFlow(h, b, op, id);
    case ExpireStale(_) => ExpireFlow(h, b, op, id);
    case _ =>
  }

  /** Over every run, what a reservation has committed is the sum of its effective Commits, and
      what it has released the sum of its Releases, its Cancels and its expiry. */
  lemma {:induction false} RunFlow(h: IdHash, b: Book, ops: seq<Op>, id: string)
    ensures CommittedOf(Run(h, b, ops), id) == CommittedOf(b, id) + CommittedIn(h, b, ops, id)
    ensures ReleasedOf(Run(h, b, ops), id) == ReleasedOf(b, id) + ReleasedIn(h, b, ops, id)
    decreases |ops|
  {
    if ops != [] {
      RunFlow(h, b, ops[..|ops| - 1], id);
      StepFlow(h, Run(h, b, ops[..|ops| - 1]), ops[|ops| - 1], id);
    }
  }

  // ----- Spending over runs -----

  /** What an operation commits against the policy `p`. */
  function SpentBy(b: Book, op: Op, p: PolicyId): int {
    if op.Mutate? && Takes(b, op.kind, Trimmed(op.mutation), op.now)
       && p in b.rows[Trim(op.mutation.id)].policies
    then CommittedBy(b, op, Trim(op.mutation.id)) else 0
  }

  ghost function SpentIn(h: IdHash, b: Book, ops: seq<Op>, p: PolicyId): int
    decreases |ops|
  {
    if ops == [] then 0
    else SpentIn(h, b, ops[..|ops| - 1], p) + SpentBy(Run(h, b, ops[..|ops| - 1]), ops[|ops| - 1], p)
  }

  lemma StepSpends(h: IdHash, b: Book, op: Op, p: PolicyId)
    ensures Spent(Step(h, b, op).rows, p) == Spent(b.rows, p) + SpentBy(b, op, p)
  {
    match op
    case Mutate(kind, m, now) =>
      if Takes(b, kind, Trimmed(m), now) {
        MutationMoves(b, kind, Trimmed(m), now, p);
      }
    case ExpireStale(now) =>
      var after := ExpireStep(b, now).rows;
      assert forall id :: id in b.rows ==> CommittedFor(p)(after[id]) == CommittedFor(p)(b.rows[id]);
      TotalMonotone(b.rows, after, CommittedFor(p));
      TotalMonotone(after, b.rows, CommittedFor(p));
    case Reserve(req) =>
      var c := ReserveStep(h, b, req);
      if c != b {
        TotalPut(b.rows, CommittedFor(p), NewId(h, b, req), c.rows[NewId(h, b, req)]);
      }
    case Upsert(_) =>
  }

  /** Over every run, what counts as spent against a policy is exactly what effective Commits
      of reservations that list it have committed. */
  lemma {:induction false} RunSpends(h: IdHash, b: Book, ops: seq<Op>, p: PolicyId)
    ensures Spent(Run(h, b, ops).rows, p) == Spent(b.rows, p) + SpentIn(h, b, ops, p)
    decreases |ops|
  {
    if ops != [] {
      RunSpends(h, b, ops[..|ops| - 1], p);
      StepSpends(h, Run(h, b, ops[..|ops| - 1]), ops[|ops| - 1], p);
    }
  }

  // ----- Reserve -----

  predicate Confident(req: ReserveRequest) {
    req.confidence == Exact || (req.confidence == Estimated && !Blank(req.approval))
  }

  /** The policy has room for the request, or tolerates that it has not. */
  ghost predicate Tolerates(b: Book, p: PolicyId, req: ReserveRequest)
    requires p in b.policies
  {
    req.value + Reserved(b.rows, p) + Spent(b.rows, p) <= b.policies[p].ceiling
    || b.policies[p].mode == Soft(false) || (b.policies[p].mode == Soft(true) && !Blank(req.approval))
  }

  predicate AppliesTo(p: Policy, req: ReserveRequest) {
    Some(p.scopeKey) in req.chain && p.quantity == req.quantity && p.window == req.window
  }

  ghost predicate Admissible(b: Book, req: ReserveRequest) {
    Confident(req) && forall p :: p in b.policies && AppliesTo(b.policies[p], req) ==> Tolerates(b, p, req)
  }

  lemma RefusedIff(b: Book, req: ReserveRequest)
    ensures Refusal(b, req).None? <==> Admissible(b, req)
  {
    if Blocking(b, req) != {} {
      var p :| p in Blocking(b, req);
      assert AppliesTo(b.policies[p], req) && !Tolerates(b, p, req);
    } else {
      forall p | p in b.policies && AppliesTo(b.policies[p], req) ensures Tolerates(b, p, req) {
        assert p !in Blocking(b, req);
      }
    }
  }

  /** A request that is reserved leaves one new row: active with the whole value reserved if
      the confidence suffices and every applicable policy has room or tolerates the breach, and
      refused with nothing otherwise. It lists exactly the policies that apply. */
  lemma ReserveRecords(h: IdHash, b: Book, req: ReserveRequest)
    requires ReserveStep(h, b, req) != b
    ensures var c, id := ReserveStep(h, b, req), NewId(h, b, req);
      && id !in b.rows && id in c.rows && c.policies == b.policies && c.rows == b.rows[id := c.rows[id]]
      && c.rows[id].key == req.key && c.rows[id].requested == req.value && c.rows[id].generation == 1
      && Some(c.rows[id].lease) == req.lease && c.rows[id].committed == c.rows[id].released == 0
      && (forall p :: p in c.rows[id].policies <==> p in b.policies && AppliesTo(b.policies[p], req))
      && c.rows[id].state == (if Admissible(b, req) then Active else Refused)
      && c.rows[id].reserved == (if Admissible(b, req) then req.value else 0)
  {
    RefusedIff(b, req);
  }

  /** A request that is not well formed changes nothing and is told the first thing that is wrong. */
  lemma MalformedAs(h: IdHash, b: Book, req: ReserveRequest, out: Outcome)
    requires ReserveAnswers(h, b, req, out)
    requires req.chain == [] || None in req.chain || Blank(req.key) || req.value < 0 || req.lease.None?
    ensures ReserveStep(h, b, req) == b
    ensures out == Failed(if req.chain == [] || None in req.chain then ScopeConflict
                          else if Blank(req.key) || req.value < 0 then StateConflict else LeaseExpired)
  {}

  /** Two requests have the same fingerprint exactly if they differ in nothing but the key. */
  lemma SameFingerprintIff(q: ReserveRequest, r: ReserveRequest)
    ensures Fingerprint(q) == Fingerprint(r) <==>
      && q.chain == r.chain && q.quantity == r.quantity && q.window == r.window && q.value == r.value
      && q.lease == r.lease && q.requester == r.requester && q.confidence == r.confidence
      && q.approval == r.approval && q.rest == r.rest
  {}

  lemma ReservedFingerprint(h: IdHash, b: Book, req: ReserveRequest)
    requires ReserveStep(h, b, req) != b
    ensures ReserveStep(h, b, req).rows[NewId(h, b, req)].fingerprint == Fingerprint(req)
  {}

  /** What a refused request is told: insufficient confidence first, then the refusal of the
      first policy, by scope and identifier, that does not tolerate it. */
  lemma DeclinedAs(h: IdHash, b: Book, req: ReserveRequest, out: Outcome)
    requires ReserveStep(h, b, req) != b && ReserveAnswers(h, b, req, out)
    ensures out.Declined? <==> !Admissible(b, req)
    ensures out.Done? <==> Admissible(b, req)
    ensures out.Done? ==> !out.replay && out.row == ReserveStep(h, b, req).rows[NewId(h, b, req)]
    ensures out.Declined? ==> (out.reason == ConfidenceInsufficient <==> !Confident(req))
    ensures out.Declined? && Confident(req) ==>
      exists p :: p in b.policies && AppliesTo(b.policies[p], req) && !Tolerates(b, p, req)
        && out.reason == (if b.policies[p].mode.Hard? then Exhausted else ApprovalRequired)
        && forall q :: q in b.policies && AppliesTo(b.policies[q], req) && !Tolerates(b, q, req) ==>
             b.policies[p].scopeKey < b.policies[q].scopeKey || (b.policies[p].scopeKey == b.policies[q].scopeKey && p <= q)
  {
    RefusedIff(b, req);
    if out.Declined? && Confident(req) {
      var blocking := Blocking(b, req);
      var p := First(b.policies, blocking);
      assert AppliesTo(b.policies[p], req) && !Tolerates(b, p, req);
      forall q | q in b.policies && AppliesTo(b.policies[q], req) && !Tolerates(b, q, req)
        ensures b.policies[p].scopeKey < b.policies[q].scopeKey || (b.policies[p].scopeKey == b.policies[q].scopeKey && p <= q)
      {
        assert q in blocking;
        assert Precedes(b.policies, p, q);
      }
    }
  }

  /** A known key is answered with its reservation if the requests agree, and rejected otherwise. */
  lemma RepeatAnswer(h: IdHash, b: Book, req: ReserveRequest, id: string, out: Outcome)
    requires RequestWellFormed(req) && BookOk(b) && ReserveAnswers(h, b, req, out)
    requires id in b.rows && b.rows[id].key == req.key && Primary(b.rows[id].policies) == Primary(Applicable(b, req))
    ensures out == if b.rows[id].fingerprint == Fingerprint(req) then Done(b.rows[id], true) else Failed(DuplicateReplay)
  {
    assert HasKey(b.rows[id], req.key, Primary(Applicable(b, req)));
    var i :| i in b.rows && HasKey(b.rows[i], req.key, Primary(Applicable(b, req)))
      && out == if b.rows[i].fingerprint == Fingerprint(req) then Done(b.rows[i], true) else Failed(DuplicateReplay);
    assert SameKey(b.rows[i], b.rows[id]);
  }

  /** If the search ends at an identifier that holds the same request, nothing is reserved. */
  lemma TakenAnswer(h: IdHash, b: Book, req: ReserveRequest, out: Outcome)
    requires RequestWellFormed(req) && ReserveAnswers(h, b, req, out)
    requires !Known(b, req.key, Primary(Applicable(b, req))) && NewId(h, b, req) in b.rows
    ensures out == Failed(DuplicateReplay) && ReserveStep(h, b, req) == b
  {}

  // ----- UpsertPolicy -----

  /** Which policies are not accepted, and why. */
  lemma UpsertRejects(b: Book, input: PolicyInput)
    ensures UpsertFault(b, input) == Some(Malformed) <==> input.scopeKey.None? || input.ceiling < 0
    ensures UpsertFault(b, input) == Some(ConstraintViolated) <==>
      && input.scopeKey.Some? && input.ceiling >= 0 && input.id !in b.policies
      && exists p :: p in b.policies && b.policies[p].scopeKey == input.scopeKey.value && b.policies[p].quantity == input.quantity
                     && b.policies[p].window == input.window && b.policies[p].version == input.version
    ensures UpsertFault(b, input).Some? ==> UpsertStep(b, input) == b
  {}

  /** An accepted policy has the mode and ceiling asked for; scope, quantity, window and version
      are those it was first entered with. Nothing else changes. */
  lemma UpsertRecords(b: Book, input: PolicyInput)
    requires input.scopeKey.Some? && input.ceiling >= 0
    requires input.id in b.policies || !TakenByAnother(b, input)
    ensures var c := UpsertStep(b, input);
      && c.policies.Keys == b.policies.Keys + {input.id} && c.rows == b.rows && c.events == b.events
      && c.policies[input.id].mode == input.mode && c.policies[input.id].ceiling == input.ceiling
      && (forall p :: p in b.policies && p != input.id ==> c.policies[p] == b.policies[p])
      && c.policies[input.id] == (if input.id in b.policies then b.policies[input.id].(mode := input.mode, ceiling := input.ceiling)
                                  else Policy(input.scopeKey.value, input.quantity, input.window, input.version, input.mode, input.ceiling))
  {}
}
