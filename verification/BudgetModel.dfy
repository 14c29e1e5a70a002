/** The budget book: policies, reservations and the operation log, and what one
    transaction does to them.  The book has no aggregate table: what a policy has
    in use is *defined* as a sum over reservations.  `BudgetLedger` keeps the
    aggregate table and is proved to compute the same book. */
module BudgetModel {
  import opened Common
  import opened Sums

  /** A hashed policy identifier, by its rank in byte order. */
  type PolicyId = nat
  /** A scope key, by its rank in byte order. */
  type ScopeKey = nat
  type Time = int

  datatype Mode = Hard | Soft(needsApproval: bool)

  datatype Policy = Policy(
    scopeKey: ScopeKey, quantity: string, window: string, version: string, mode: Mode, ceiling: int)

  /** `scopeKey` is None for a scope that has no key (unknown kind, missing project). */
  datatype PolicyInput = PolicyInput(
    id: PolicyId, scopeKey: Option<ScopeKey>, quantity: string, window: string, version: string,
    mode: Mode, ceiling: int)

  datatype State = Active | PartiallyCommitted | Committed | Released | Cancelled | Expired | Refused

  datatype Confidence = Exact | Estimated | Unproven

  /** `rest` stands for the request fields that only the fingerprint looks at. */
  datatype ReserveRequest = ReserveRequest(
    chain: seq<Option<ScopeKey>>, quantity: string, window: string, value: int, lease: Option<Time>,
    key: string, requester: string, confidence: Confidence, approval: string, rest: string)

  datatype Reservation = Reservation(
    key: string, fingerprint: ReserveRequest, policies: set<PolicyId>, requested: int, reserved: int,
    committed: int, released: int, state: State, generation: int, lease: Time)

  datatype Kind = Commit | Release | Cancel | Renew

  datatype MutationRequest = MutationRequest(
    id: string, key: string, generation: int, value: int, lease: Option<Time>, usage: set<string>)

  datatype OpKey =
    | ReserveKey(key: string)
    | RefuseKey(key: string)
    | MutationKey(kind: Kind, id: string, key: string)
    | ExpireKey(id: string, generation: int)

  /** A logged operation; only mutations carry the request they were made with. */
  type Logged = Option<(Kind, MutationRequest)>

  datatype Book = Book(
    policies: map<PolicyId, Policy>, rows: map<string, Reservation>, events: map<OpKey, Logged>)

  datatype Error =
    | ScopeConflict | StateConflict | LeaseExpired | DuplicateReplay | Malformed
    | Exhausted | ApprovalRequired | ConfidenceInsufficient | AggregateNegative | ConstraintViolated

  datatype Outcome =
    | Done(row: Reservation, replay: bool)
    | Declined(reason: Error)
    | Failed(error: Error)

  /** The identifier hashes. Nothing is assumed about collisions. */
  datatype IdHash = IdHash(
    base: (string, Option<PolicyId>, string) -> string, suffix: ReserveRequest -> string)

  const EMPTY_BOOK := Book(map[], map[], map[])

  // ----- What a policy has in use -----

  ghost function ReservedFor(p: PolicyId): Reservation -> int {
    (r: Reservation) => if p in r.policies then r.reserved else 0
  }

  ghost function CommittedFor(p: PolicyId): Reservation -> int {
    (r: Reservation) => if p in r.policies then r.committed else 0
  }

  ghost function Reserved(rows: map<string, Reservation>, p: PolicyId): int {
    Total(rows, ReservedFor(p))
  }

  ghost function Spent(rows: map<string, Reservation>, p: PolicyId): int {
    Total(rows, CommittedFor(p))
  }

  ghost function Used(b: Book, p: PolicyId): int {
    Reserved(b.rows, p) + Spent(b.rows, p)
  }

  // ----- UpsertPolicy -----

  predicate TakenByAnother(b: Book, input: PolicyInput)
    requires input.scopeKey.Some?
  {
    exists p :: p in b.policies && p != input.id
      && b.policies[p].scopeKey == input.scopeKey.value && b.policies[p].quantity == input.quantity
      && b.policies[p].window == input.window && b.policies[p].version == input.version
  }

  /** A scope without a key and a negative ceiling are malformed records; a second policy for
      the same scope, quantity, window and version violates the table's unique index. */
  function UpsertFault(b: Book, input: PolicyInput): Option<Error> {
    if input.scopeKey.None? || input.ceiling < 0 then Some(Malformed)
    else if input.id !in b.policies && TakenByAnother(b, input) then Some(ConstraintViolated)
    else None
  }

  predicate UpsertAccepted(b: Book, input: PolicyInput) {
    UpsertFault(b, input).None?
  }

  /** On conflict only the mode and the ceiling are overwritten. */
  function UpsertStep(b: Book, input: PolicyInput): Book {
    if !UpsertAccepted(b, input) then b
    else if input.id in b.policies then
      b.(policies := b.policies[input.id := b.policies[input.id].(mode := input.mode, ceiling := input.ceiling)])
    else
      b.(policies := b.policies[input.id := Policy(input.scopeKey.value, input.quantity, input.window,
                                                   input.version, input.mode, input.ceiling)])
  }

  // ----- Reserve -----

  predicate RequestWellFormed(req: ReserveRequest) {
    && req.chain != []
    && None !in req.chain
    && !Blank(req.key) && req.value >= 0
    && req.lease.Some?
  }

  function Malformation(req: ReserveRequest): Error {
    if req.chain == [] || None in req.chain then ScopeConflict
    else if Blank(req.key) || req.value < 0 then StateConflict
    else LeaseExpired
  }

  /** The fingerprint covers every field of the request except the idempotency key. */
  function Fingerprint(req: ReserveRequest): ReserveRequest {
    req.(key := "")
  }

  predicate Matches(p: Policy, req: ReserveRequest) {
    Some(p.scopeKey) in req.chain && p.quantity == req.quantity && p.window == req.window
  }

  function Applicable(b: Book, req: ReserveRequest): set<PolicyId> {
    set p | p in b.policies && Matches(b.policies[p], req)
  }

  lemma {:induction false} LeastExists(s: set<nat>, x: nat)
    requires x in s
    ensures exists p :: p in s && forall q :: q in s ==> p <= q
    decreases x
  {
    if y :| y in s && y < x {
      LeastExists(s, y);
    }
  }

  function Least(s: set<nat>): (p: nat)
    requires s != {}
    ensures p in s && forall q :: q in s ==> p <= q
  {
    LeastExists(s, var x :| x in s; x);
    var p :| p in s && forall q :: q in s ==> p <= q;
    p
  }

  /** The first policy identifier of a reservation, if it counts against any policy. */
  function Primary(ids: set<PolicyId>): Option<PolicyId> {
    if ids == {} then None else Some(Least(ids))
  }

  predicate Approved(req: ReserveRequest) {
    !Blank(req.approval)
  }

  predicate ConfidenceSuffices(req: ReserveRequest) {
    req.confidence == Exact || (req.confidence == Estimated && Approved(req))
  }

  /** A policy that would be breached and does not tolerate it. */
  ghost predicate Blocks(b: Book, p: PolicyId, req: ReserveRequest)
    requires p in b.policies
  {
    && req.value > b.policies[p].ceiling - Used(b, p)
    && (b.policies[p].mode.Hard? || (b.policies[p].mode.needsApproval && !Approved(req)))
  }

  /** Capacity is checked in the order of scope key, then identifier. */
  predicate Precedes(policies: map<PolicyId, Policy>, p: PolicyId, q: PolicyId)
    requires p in policies && q in policies
  {
    policies[p].scopeKey < policies[q].scopeKey || (policies[p].scopeKey == policies[q].scopeKey && p <= q)
  }

  predicate IsFirst(policies: map<PolicyId, Policy>, s: set<PolicyId>, p: PolicyId)
    requires s <= policies.Keys
  {
    p in s && forall q :: q in s ==> Precedes(policies, p, q)
  }

  lemma {:induction false} FirstExists(policies: map<PolicyId, Policy>, s: set<PolicyId>)
    requires s != {} && s <= policies.Keys
    ensures exists p :: IsFirst(policies, s, p)
  {
    var x :| x in s;
    if s == {x} {
      assert IsFirst(policies, s, x);
    } else {
      FirstExists(policies, s - {x});
      var p :| IsFirst(policies, s - {x}, p);
      var first := if Precedes(policies, p, x) then p else x;
      assert forall q :: q in s ==> q == x || q in s - {x};
      assert IsFirst(policies, s, first);
    }
  }

  lemma FirstUnique(policies: map<PolicyId, Policy>, s: set<PolicyId>, p: PolicyId, q: PolicyId)
    requires s <= policies.Keys && IsFirst(policies, s, p) && IsFirst(policies, s, q)
    ensures p == q
  {}

  ghost function First(policies: map<PolicyId, Policy>, s: set<PolicyId>): (p: PolicyId)
    requires s != {} && s <= policies.Keys
    ensures IsFirst(policies, s, p)
  {
    FirstExists(policies, s);
    var p :| IsFirst(policies, s, p);
    p
  }

  ghost function Blocking(b: Book, req: ReserveRequest): set<PolicyId> {
    set p | p in Applicable(b, req) && Blocks(b, p, req)
  }

  /** Why a fresh, well-formed request is refused, if it is. */
  ghost function Refusal(b: Book, req: ReserveRequest): Option<Error> {
    if !ConfidenceSuffices(req) then Some(ConfidenceInsufficient)
    else if Blocking(b, req) == {} then None
    else if b.policies[First(b.policies, Blocking(b, req))].mode.Hard? then Some(Exhausted)
    else Some(ApprovalRequired)
  }

  predicate Usable(rows: map<string, Reservation>, id: string, fingerprint: ReserveRequest) {
    id in rows ==> rows[id].fingerprint == fingerprint
  }

  function Candidate(base: string, suffix: string, n: nat): string {
    if n == 0 then base + "-" + suffix else base + "-" + suffix + "-" + Decimal(n + 1)
  }

  lemma CandidateInjective(base: string, suffix: string, m: nat, n: nat)
    requires Candidate(base, suffix, m) == Candidate(base, suffix, n)
    ensures m == n
  {
    var stem := base + "-" + suffix;
    if m != 0 && n != 0 {
      SamePrefix(stem + "-", Decimal(m + 1), Decimal(n + 1));
      DecimalInjective(m + 1, n + 1);
    }
  }

  ghost function Tried(base: string, suffix: string, n: nat): set<string> {
    set m | 0 <= m < n :: Candidate(base, suffix, m)
  }

  /** Every candidate that is taken uses up one row, so the search is finite. */
  lemma SearchProgress(rows: map<string, Reservation>, base: string, suffix: string, n: nat)
    requires Candidate(base, suffix, n) in rows
    ensures rows.Keys - Tried(base, suffix, n + 1) < rows.Keys - Tried(base, suffix, n)
  {
    var c := Candidate(base, suffix, n);
    if c in Tried(base, suffix, n) {
      var m :| 0 <= m < n && c == Candidate(base, suffix, m);
      CandidateInjective(base, suffix, m, n);
    }
    assert c in Tried(base, suffix, n + 1);
  }

  function SearchId(rows: map<string, Reservation>, base: string, suffix: string,
                    fingerprint: ReserveRequest, n: nat): (id: string)
    ensures Usable(rows, id, fingerprint)
    ensures exists k :: k >= n && id == Candidate(base, suffix, k)
              && forall j :: n <= j < k ==> !Usable(rows, Candidate(base, suffix, j), fingerprint)
    decreases rows.Keys - Tried(base, suffix, n)
  {
    var c := Candidate(base, suffix, n);
    if Usable(rows, c, fingerprint) then c
    else
      SearchProgress(rows, base, suffix, n);
      SearchId(rows, base, suffix, fingerprint, n + 1)
  }

  /** The identifier a new reservation gets: unused, or holding the same request. */
  function AllocateId(rows: map<string, Reservation>, base: string, suffix: string,
                      fingerprint: ReserveRequest): (id: string)
    ensures Usable(rows, id, fingerprint)
  {
    if Usable(rows, base, fingerprint) then base else SearchId(rows, base, suffix, fingerprint, 0)
  }

  predicate HasKey(r: Reservation, key: string, primary: Option<PolicyId>) {
    r.key == key && Primary(r.policies) == primary
  }

  ghost predicate Known(b: Book, key: string, primary: Option<PolicyId>) {
    exists id :: id in b.rows && HasKey(b.rows[id], key, primary)
  }

  function NewRow(req: ReserveRequest, ids: set<PolicyId>, refused: bool): Reservation
    requires RequestWellFormed(req)
  {
    Reservation(req.key, Fingerprint(req), ids, req.value, if refused then 0 else req.value, 0, 0,
                if refused then Refused else Active, 1, req.lease.value)
  }

  function Log(events: map<OpKey, Logged>, k: OpKey, e: Logged): map<OpKey, Logged> {
    if k in events then events else events[k := e]
  }

  ghost function NewId(h: IdHash, b: Book, req: ReserveRequest): string {
    AllocateId(b.rows, h.base(req.key, Primary(Applicable(b, req)), req.requester),
               h.suffix(Fingerprint(req)), Fingerprint(req))
  }

  ghost function ReserveStep(h: IdHash, b: Book, req: ReserveRequest): Book {
    if !RequestWellFormed(req) || Known(b, req.key, Primary(Applicable(b, req)))
       || NewId(h, b, req) in b.rows then b
    else
      var refused := Refusal(b, req).Some?;
      Book(b.policies,
           b.rows[NewId(h, b, req) := NewRow(req, Applicable(b, req), refused)],
           Log(b.events, if refused then RefuseKey(req.key) else ReserveKey(req.key), None))
  }

  /** What the caller of Reserve is told. */
  ghost predicate ReserveAnswers(h: IdHash, b: Book, req: ReserveRequest, out: Outcome) {
    var primary := Primary(Applicable(b, req));
    if !RequestWellFormed(req) then out == Failed(Malformation(req))
    else if Known(b, req.key, primary) then
      exists id :: id in b.rows && HasKey(b.rows[id], req.key, primary)
        && out == if b.rows[id].fingerprint == Fingerprint(req) then Done(b.rows[id], true) else Failed(DuplicateReplay)
    else if NewId(h, b, req) in b.rows then out == Failed(DuplicateReplay)
    else if Refusal(b, req).Some? then out == Declined(Refusal(b, req).value)
    else out == Done(NewRow(req, Applicable(b, req), false), false)
  }

  // ----- Commit, Release, Cancel, Renew -----

  predicate Open(r: Reservation) {
    r.state == Active || r.state == PartiallyCommitted
  }

  function Lapsed(r: Reservation, now: Time): bool {
    r.lease <= now
  }

  /** Identifier and key are used without surrounding white space. */
  function Trimmed(req: MutationRequest): MutationRequest {
    req.(id := Trim(req.id), key := Trim(req.key))
  }

  /** The logged form of a mutation: everything but the generation it was fenced with. */
  function MutationFingerprint(kind: Kind, req: MutationRequest): (Kind, MutationRequest) {
    (kind, req.(generation := 0))
  }

  /** A zero value asks for the whole remaining balance. */
  function Amount(r: Reservation, req: MutationRequest): int {
    if req.value == 0 then r.reserved else req.value
  }

  function Settled(r: Reservation, amount: int, done: State): State {
    if r.reserved - amount == 0 then done else PartiallyCommitted
  }

  function Mutated(r: Reservation, kind: Kind, req: MutationRequest): Reservation
    requires kind == Renew ==> req.lease.Some?
  {
    var v := Amount(r, req);
    match kind
    case Renew => r.(generation := r.generation + 1, lease := req.lease.value)
    case Commit => r.(generation := r.generation + 1, reserved := r.reserved - v,
                      committed := r.committed + v, state := Settled(r, v, Committed))
    case Release => r.(generation := r.generation + 1, reserved := r.reserved - v,
                       released := r.released + v, state := Settled(r, v, Released))
    case Cancel => r.(generation := r.generation + 1, reserved := r.reserved - v,
                      released := r.released + v, state := Settled(r, v, Cancelled))
  }

  /** The checks of a mutation, in the order they are made. */
  function MutationFault(b: Book, kind: Kind, req: MutationRequest, now: Time): Option<Error> {
    var op := MutationKey(kind, req.id, req.key);
    if req.id == "" || req.key == "" || req.value < 0 then Some(StateConflict)
    else if op in b.events then
      if b.events[op].Some? && b.events[op].value != MutationFingerprint(kind, req) then Some(DuplicateReplay)
      else if req.id !in b.rows then Some(StateConflict)
      else if req.generation != b.rows[req.id].generation then Some(LeaseExpired)
      else None
    else if req.id !in b.rows then Some(StateConflict)
    else if req.generation != b.rows[req.id].generation then Some(LeaseExpired)
    else if kind == Renew && req.lease.None? then Some(LeaseExpired)
    else if !Open(b.rows[req.id]) then Some(StateConflict)
    else if Lapsed(b.rows[req.id], now) then Some(LeaseExpired)
    else if Amount(b.rows[req.id], req) > b.rows[req.id].reserved then Some(StateConflict)
    else if kind == Renew && req.lease.value <= now then Some(LeaseExpired)
    else None
  }

  predicate Replays(b: Book, kind: Kind, req: MutationRequest) {
    MutationKey(kind, req.id, req.key) in b.events
  }

  predicate Takes(b: Book, kind: Kind, req: MutationRequest, now: Time)
    ensures Takes(b, kind, req, now) ==> req.id in b.rows && (kind == Renew ==> req.lease.Some?)
  {
    MutationFault(b, kind, req, now).None? && !Replays(b, kind, req)
  }

  function MutateStep(b: Book, kind: Kind, req: MutationRequest, now: Time): Book {
    if !Takes(b, kind, req, now) then b
    else
      Book(b.policies,
           b.rows[req.id := Mutated(b.rows[req.id], kind, req)],
           b.events[MutationKey(kind, req.id, req.key) := Some(MutationFingerprint(kind, req))])
  }

  function MutateAnswer(b: Book, kind: Kind, req: MutationRequest, now: Time): Outcome {
    var fault := MutationFault(b, kind, req, now);
    if fault.Some? then Failed(fault.value)
    else if Replays(b, kind, req) then Done(b.rows[req.id], true)
    else Done(Mutated(b.rows[req.id], kind, req), false)
  }

  // ----- ExpireStale -----

  /** A lapsed reservation without balance is skipped. */
  predicate Due(r: Reservation, now: Time) {
    Open(r) && Lapsed(r, now) && r.reserved > 0
  }

  function ExpiredRow(r: Reservation): Reservation {
    r.(reserved := 0, released := r.released + r.reserved, state := Expired, generation := r.generation + 1)
  }

  function ExpireRow(r: Reservation, now: Time): Reservation {
    if Due(r, now) then ExpiredRow(r) else r
  }

  function ExpireKeys(rows: map<string, Reservation>, ids: set<string>): set<OpKey> {
    set id | id in ids && id in rows :: ExpireKey(id, rows[id].generation + 1)
  }

  /** Logged keys keep what they were logged with. */
  function LogAll(events: map<OpKey, Logged>, keys: set<OpKey>): map<OpKey, Logged> {
    map k | k in events.Keys + keys :: if k in events then events[k] else None
  }

  function DueIds(rows: map<string, Reservation>, now: Time): set<string> {
    set id | id in rows && Due(rows[id], now)
  }

  function ExpireStep(b: Book, now: Time): Book {
    Book(b.policies, map id | id in b.rows :: ExpireRow(b.rows[id], now),
         LogAll(b.events, ExpireKeys(b.rows, DueIds(b.rows, now))))
  }

  // ----- Runs -----

  datatype Op =
    | Upsert(input: PolicyInput)
    | Reserve(req: ReserveRequest)
    | Mutate(kind: Kind, mutation: MutationRequest, now: Time)
    | ExpireStale(now: Time)

  ghost function Step(h: IdHash, b: Book, op: Op): Book {
    match op
    case Upsert(input) => UpsertStep(b, input)
    case Reserve(req) => ReserveStep(h, b, req)
    case Mutate(kind, m, now) => MutateStep(b, kind, Trimmed(m), now)
    case ExpireStale(now) => ExpireStep(b, now)
  }

  ghost function Run(h: IdHash, b: Book, ops: seq<Op>): Book
    decreases |ops|
  {
    if ops == [] then b else Step(h, Run(h, b, ops[..|ops| - 1]), ops[|ops| - 1])
  }
}
