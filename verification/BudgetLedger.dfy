/** The ledger as it is stored: four tables, of which the aggregates are a running
    cache of the sums that the book defines. Each method is one transaction. */
module BudgetLedger {
  import opened Common
  import opened Sums
  import opened BudgetModel
  import opened BudgetSafety

  datatype Aggregate = Aggregate(reserved: int, committed: int)

  type Aggregates = map<PolicyId, Aggregate>

  /** The cache invariant: every policy has an aggregate, and it is the sum. */
  ghost predicate Cached(aggs: Aggregates, b: Book) {
    && aggs.Keys == b.policies.Keys
    && forall p :: p in aggs ==> aggs[p] == Aggregate(Reserved(b.rows, p), Spent(b.rows, p))
  }

  function AddTo(aggs: Aggregates, ids: set<PolicyId>, dr: int, dc: int): Aggregates {
    map p | p in aggs :: if p in ids then Aggregate(aggs[p].reserved + dr, aggs[p].committed + dc) else aggs[p]
  }

  /** The guard of one aggregate update: the row exists and stays non-negative. */
  predicate CanAdd(aggs: Aggregates, p: PolicyId, dr: int, dc: int) {
    p in aggs && aggs[p].reserved + dr >= 0 && aggs[p].committed + dc >= 0
  }

  /** Adding a row's change to exactly the policies it lists keeps the cache exact. */
  lemma CacheFollowsRow(aggs: Aggregates, b: Book, c: Book, id: string, r: Reservation, dr: int, dc: int)
    requires Cached(aggs, b) && c.policies == b.policies && c.rows == b.rows[id := r]
    requires if id in b.rows then
               r.policies == b.rows[id].policies && dr == r.reserved - b.rows[id].reserved
               && dc == r.committed - b.rows[id].committed
             else dr == r.reserved && dc == r.committed
    ensures Cached(AddTo(aggs, r.policies, dr, dc), c)
  {
    forall p | p in aggs
      ensures AddTo(aggs, r.policies, dr, dc)[p] == Aggregate(Reserved(c.rows, p), Spent(c.rows, p)) {
      TotalPut(b.rows, ReservedFor(p), id, r);
      TotalPut(b.rows, CommittedFor(p), id, r);
    }
  }

  /** In a book in order, taking up to a row's own balance never trips the guard. */
  lemma GuardNeverRejects(aggs: Aggregates, b: Book, id: string, dr: int, dc: int)
    requires Cached(aggs, b) && RowsOk(b) && id in b.rows
    requires -b.rows[id].reserved <= dr && dc >= 0
    ensures forall p :: p in b.rows[id].policies ==> CanAdd(aggs, p, dr, dc)
  {
    forall p | p in b.rows[id].policies ensures CanAdd(aggs, p, dr, dc) {
      TotalAtLeast(b.rows, ReservedFor(p), id);
      TotalNonNegative(b.rows, CommittedFor(p));
    }
  }

  lemma NewRowNeverRejected(aggs: Aggregates, b: Book, ids: set<PolicyId>, dr: int)
    requires Cached(aggs, b) && RowsOk(b) && ids <= b.policies.Keys && dr >= 0
    ensures forall p :: p in ids ==> CanAdd(aggs, p, dr, 0)
  {
    forall p | p in ids ensures CanAdd(aggs, p, dr, 0) {
      TotalNonNegative(b.rows, ReservedFor(p));
      TotalNonNegative(b.rows, CommittedFor(p));
    }
  }

  /** One aggregate update per listed policy; the first refused one fails them all. */
  method AddAggregates(aggs: Aggregates, ids: set<PolicyId>, dr: int, dc: int) returns (ok: bool, out: Aggregates)
    ensures ok <==> forall p :: p in ids ==> CanAdd(aggs, p, dr, dc)
    ensures ok ==> out == AddTo(aggs, ids, dr, dc)
  {
    out := aggs;
    var rest := ids;
    while rest != {}
      invariant rest <= ids
      invariant forall p :: p in ids - rest ==> CanAdd(aggs, p, dr, dc)
      invariant out == AddTo(aggs, ids - rest, dr, dc)
      decreases rest
    {
      var p :| p in rest;
      if !CanAdd(out, p, dr, dc) {
        return false, out;
      }
      out := out[p := Aggregate(out[p].reserved + dr, out[p].committed + dc)];
      rest := rest - {p};
    }
    ok := true;
    assert ids - rest == ids;
  }

  /** The field by field update of a mutation that passed its checks. */
  method NextRow(r: Reservation, kind: Kind, value: int, req: MutationRequest) returns (next: Reservation)
    requires value == Amount(r, req) && (kind == Renew ==> req.lease.Some?)
    ensures next == Mutated(r, kind, req)
  {
    next := r.(generation := r.generation + 1);
    match kind {
      case Renew =>
        next := next.(lease := req.lease.value);
      case Commit =>
        next := next.(reserved := next.reserved - value, committed := next.committed + value);
        next := next.(state := if next.reserved == 0 then Committed else PartiallyCommitted);
      case Release =>
        next := next.(reserved := next.reserved - value, released := next.released + value);
        next := next.(state := if next.reserved == 0 then Released else PartiallyCommitted);
      case Cancel =>
        next := next.(reserved := next.reserved - value, released := next.released + value);
        next := next.(state := if next.reserved == 0 then Cancelled else PartiallyCommitted);
    }
  }

  class Ledger {
    var policies: map<PolicyId, Policy>
    var aggregates: Aggregates
    var rows: map<string, Reservation>
    var events: map<OpKey, Logged>
    const hash: IdHash

    ghost function Contents(): Book
      reads this
    {
      Book(policies, rows, events)
    }

    ghost predicate Valid()
      reads this
    {
      BookOk(Contents()) && Cached(aggregates, Contents())
    }

    constructor (hash: IdHash)
      ensures Valid() && Contents() == EMPTY_BOOK && this.hash == hash
    {
      this.hash := hash;
      policies, aggregates, rows, events := map[], map[], map[], map[];
    }

    method UpsertPolicy(input: PolicyInput) returns (fault: Option<Error>)
      requires Valid()
      modifies this
      ensures Valid() && Contents() == UpsertStep(old(Contents()), input)
      ensures fault == UpsertFault(old(Contents()), input)
    {
      ghost var before := Contents();
      UpsertKeepsBook(before, input);
      if input.scopeKey.None? || input.ceiling < 0 {
        return Some(Malformed);
      }
      if input.id in policies {
        policies := policies[input.id := policies[input.id].(mode := input.mode, ceiling := input.ceiling)];
      } else {
        if exists p :: p in policies && p != input.id
             && policies[p].scopeKey == input.scopeKey.value && policies[p].quantity == input.quantity
             && policies[p].window == input.window && policies[p].version == input.version {
          return Some(ConstraintViolated);
        }
        UnlistedPolicyEmpty(before, input.id);
        policies := policies[input.id := Policy(input.scopeKey.value, input.quantity, input.window,
                                                input.version, input.mode, input.ceiling)];
        aggregates := aggregates[input.id := Aggregate(0, 0)];
      }
      fault := None;
    }

    method LoadApplicable(req: ReserveRequest) returns (ids: set<PolicyId>)
      ensures ids == Applicable(Contents(), req)
    {
      ids := {};
      for i := 0 to |req.chain|
        invariant ids == set p | p in policies && Some(policies[p].scopeKey) in req.chain[..i]
                               && policies[p].quantity == req.quantity && policies[p].window == req.window
      {
        ids := ids + set p | p in policies && Some(policies[p].scopeKey) == req.chain[i]
                             && policies[p].quantity == req.quantity && policies[p].window == req.window;
        assert req.chain[..i + 1] == req.chain[..i] + [req.chain[i]];
      }
      assert req.chain[..|req.chain|] == req.chain;
    }

    method AllocateReservationId(base: string, suffix: string, fingerprint: ReserveRequest) returns (id: string)
      ensures id == AllocateId(rows, base, suffix, fingerprint)
    {
      if base !in rows || rows[base].fingerprint == fingerprint {
        return base;
      }
      id := base + "-" + suffix;
      var i := 0;
      while id in rows && rows[id].fingerprint != fingerprint
        invariant i >= 0 && id == Candidate(base, suffix, i)
        invariant AllocateId(rows, base, suffix, fingerprint) == SearchId(rows, base, suffix, fingerprint, i)
        decreases rows.Keys - Tried(base, suffix, i)
      {
        SearchProgress(rows, base, suffix, i);
        id := base + "-" + suffix + "-" + Decimal(i + 2);
        i := i + 1;
      }
    }

    /** Reads the aggregates, not the reservations. */
    method CheckCapacity(req: ReserveRequest, ids: set<PolicyId>) returns (refusal: Option<Error>)
      requires Valid() && ids == Applicable(Contents(), req) && ConfidenceSuffices(req)
      ensures refusal == Refusal(Contents(), req)
    {
      var rest := ids;
      while rest != {}
        invariant rest <= ids
        invariant forall p :: p in ids - rest ==> !Blocks(Contents(), p, req)
        decreases rest
      {
        FirstExists(policies, rest);
        var p :| p in rest && IsFirst(policies, rest, p);
        var available := policies[p].ceiling - aggregates[p].reserved - aggregates[p].committed;
        if req.value > available {
          if policies[p].mode.Hard? || (policies[p].mode.needsApproval && !Approved(req)) {
            assert Blocking(Contents(), req) <= rest && p in Blocking(Contents(), req);
            FirstUnique(policies, Blocking(Contents(), req), p, First(policies, Blocking(Contents(), req)));
            return if policies[p].mode.Hard? then Some(Exhausted) else Some(ApprovalRequired);
          }
        }
        rest := rest - {p};
      }
      assert Blocking(Contents(), req) == {};
      refusal := None;
    }

    method FindByKey(key: string, primary: Option<PolicyId>) returns (found: Option<string>)
      ensures found.Some? ==> found.value in rows && HasKey(rows[found.value], key, primary)
      ensures found.Some? <==> Known(Contents(), key, primary)
    {
      if id :| id in rows && HasKey(rows[id], key, primary) {
        found := Some(id);
      } else {
        found := None;
      }
    }

    /** Inserts a granted reservation and charges every applicable policy. */
    method Grant(id: string, row: Reservation) returns (ok: bool)
      requires Valid() && id !in rows && row.policies <= policies.Keys
      requires row.reserved >= 0 && row.committed == 0
      modifies this`rows, this`aggregates
      ensures ok && rows == old(rows)[id := row] && Cached(aggregates, Contents())
    {
      ghost var before := Contents();
      NewRowNeverRejected(aggregates, before, row.policies, row.reserved);
      var charged;
      ok, charged := AddAggregates(aggregates, row.policies, row.reserved, 0);
      CacheFollowsRow(aggregates, before, before.(rows := rows[id := row]), id, row, row.reserved, 0);
      if ok {
        rows, aggregates := rows[id := row], charged;
      }
    }

    /** Inserts a refusal: it is recorded, and charges nothing. */
    method Refuse(id: string, row: Reservation)
      requires Valid() && id !in rows && row.reserved == row.committed == 0
      modifies this`rows
      ensures rows == old(rows)[id := row] && Cached(aggregates, Contents())
    {
      CacheFollowsRow(aggregates, Contents(), Contents().(rows := rows[id := row]), id, row, 0, 0);
      assert AddTo(aggregates, row.policies, 0, 0) == aggregates;
      rows := rows[id := row];
    }

    method Reserve(req: ReserveRequest) returns (out: Outcome)
      requires Valid()
      modifies this
      ensures Valid() && Contents() == ReserveStep(hash, old(Contents()), req)
      ensures ReserveAnswers(hash, old(Contents()), req, out)
    {
      ghost var before := Contents();
      ReserveKeepsBook(hash, before, req);
      if !RequestWellFormed(req) {
        return Failed(Malformation(req));
      }
      var ids := LoadApplicable(req);
      var found := FindByKey(req.key, Primary(ids));
      if found.Some? {
        var row := rows[found.value];
        return if row.fingerprint == Fingerprint(req) then Done(row, true) else Failed(DuplicateReplay);
      }
      var id := AllocateReservationId(hash.base(req.key, Primary(ids), req.requester),
                                      hash.suffix(Fingerprint(req)), Fingerprint(req));
      if id in rows {
        return Failed(DuplicateReplay);
      }
      var refusal := Some(ConfidenceInsufficient);
      if ConfidenceSuffices(req) {
        refusal := CheckCapacity(req, ids);
      }
      var row := NewRow(req, ids, refusal.Some?);
      if refusal.Some? {
        Refuse(id, row);
        events := Log(events, RefuseKey(req.key), None);
        return Declined(refusal.value);
      }
      var ok := Grant(id, row);
      events := Log(events, ReserveKey(req.key), None);
      out := if ok then Done(row, false) else Failed(AggregateNegative);
    }

    /** Writes one mutated row and moves its change into the aggregates. */
    method Rewrite(id: string, row: Reservation) returns (ok: bool)
      requires Valid() && id in rows && row.policies == rows[id].policies && RowOk(row)
      requires row.committed >= rows[id].committed
      modifies this`rows, this`aggregates
      ensures ok && rows == old(rows)[id := row] && Cached(aggregates, Contents())
    {
      ghost var before := Contents();
      var dr, dc := row.reserved - rows[id].reserved, row.committed - rows[id].committed;
      GuardNeverRejects(aggregates, before, id, dr, dc);
      var charged;
      ok, charged := AddAggregates(aggregates, row.policies, dr, dc);
      CacheFollowsRow(aggregates, before, before.(rows := rows[id := row]), id, row, dr, dc);
      if ok {
        rows, aggregates := rows[id := row], charged;
      }
    }

    method CheckMutation(kind: Kind, req: MutationRequest, now: Time) returns (fault: Option<Error>)
      ensures fault == MutationFault(Contents(), kind, req, now)
    {
      if req.id == "" || req.key == "" || req.value < 0 {
        return Some(StateConflict);
      }
      var op := MutationKey(kind, req.id, req.key);
      if op in events {
        if events[op].Some? && events[op].value != MutationFingerprint(kind, req) {
          return Some(DuplicateReplay);
        }
        if req.id !in rows {
          return Some(StateConflict);
        }
        return if req.generation != rows[req.id].generation then Some(LeaseExpired) else None;
      }
      if req.id !in rows {
        return Some(StateConflict);
      }
      var r := rows[req.id];
      if req.generation != r.generation || (kind == Renew && req.lease.None?) {
        return Some(LeaseExpired);
      }
      if !Open(r) {
        return Some(StateConflict);
      }
      if r.lease <= now {
        return Some(LeaseExpired);
      }
      var value := if req.value == 0 then r.reserved else req.value;
      if value > r.reserved {
        return Some(StateConflict);
      }
      fault := if kind == Renew && req.lease.value <= now then Some(LeaseExpired) else None;
    }

    method Mutate(kind: Kind, raw: MutationRequest, now: Time) returns (out: Outcome)
      requires Valid()
      modifies this
      ensures Valid() && Contents() == MutateStep(old(Contents()), kind, Trimmed(raw), now)
      ensures out == MutateAnswer(old(Contents()), kind, Trimmed(raw), now)
    {
      var req := Trimmed(raw);
      ghost var before := Contents();
      MutateKeepsBook(before, kind, req, now);
      var fault := CheckMutation(kind, req, now);
      if fault.Some? {
        return Failed(fault.value);
      }
      var op := MutationKey(kind, req.id, req.key);
      if op in events {
        return Done(rows[req.id], true);
      }
      var r, value := rows[req.id], req.value;
      if value == 0 {
        value := r.reserved;
      }
      var next := NextRow(r, kind, value, req);
      MutatedRowOk(before, kind, req, now);
      var ok := Rewrite(req.id, next);
      events := events[op := Some(MutationFingerprint(kind, req))];
      out := if ok then Done(next, false) else Failed(AggregateNegative);
    }

    /** Expires one reservation: its balance leaves every policy it counts against. */
    method ExpireOne(id: string)
      requires Cached(aggregates, Contents()) && RowsOk(Contents()) && id in rows && Open(rows[id])
      modifies this`rows, this`aggregates, this`events
      ensures Contents() == ExpireOneIn(old(Contents()), id)
      ensures Cached(aggregates, Contents()) && RowsOk(Contents())
    {
      var r := rows[id];
      ghost var here := Contents();
      GuardNeverRejects(aggregates, here, id, -r.reserved, 0);
      var ok, charged := AddAggregates(aggregates, r.policies, -r.reserved, 0);
      CacheFollowsRow(aggregates, here, here.(rows := rows[id := ExpiredRow(r)]), id, ExpiredRow(r), -r.reserved, 0);
      rows, aggregates := rows[id := ExpiredRow(r)], charged;
      events := Log(events, ExpireKey(id, r.generation + 1), None);
    }

    /** Expires the due reservations one after the other, in any order. */
    method ExpireEach(due: set<string>) returns (expired: seq<string>)
      requires Cached(aggregates, Contents()) && RowsOk(Contents())
      requires forall id :: id in due ==> id in rows && Open(rows[id])
      modifies this`rows, this`aggregates, this`events
      ensures Distinct(expired) && forall id :: id in expired <==> id in due
      ensures Contents() == ExpireFold(old(Contents()), expired)
      ensures Cached(aggregates, Contents())
    {
      var rest := due;
      expired := [];
      while rest != {}
        invariant forall id :: id in due <==> id in rest || id in expired
        invariant Distinct(expired) && forall id :: id in expired ==> id !in rest
        invariant Contents() == ExpireFold(old(Contents()), expired)
        invariant Cached(aggregates, Contents()) && RowsOk(Contents())
        decreases rest
      {
        var id :| id in rest;
        FoldOnRow(old(Contents()), expired, id);
        FoldNext(old(Contents()), expired, id);
        ExpireOne(id);
        expired, rest := expired + [id], rest - {id};
      }
    }

    method ExpireStale(now: Time) returns (expired: seq<string>)
      requires Valid()
      modifies this
      ensures Valid() && Contents() == ExpireStep(old(Contents()), now)
      ensures forall id :: id in expired <==> id in DueIds(old(rows), now)
    {
      ghost var before := Contents();
      expired := ExpireEach(DueIds(rows, now));
      FoldIsStep(before, expired, now);
      ExpireKeepsBook(before, now);
    }

    /** Any run of transactions: the ledger follows the book and its cache stays exact. */
    method RunAll(ops: seq<Op>)
      requires Valid()
      modifies this
      ensures Valid() && Contents() == Run(hash, old(Contents()), ops)
    {
      for i := 0 to |ops|
        invariant Valid() && Contents() == Run(hash, old(Contents()), ops[..i])
      {
        assert ops[..i + 1][..i] == ops[..i];
        match ops[i] {
          case Upsert(input) => var _ := UpsertPolicy(input);
          case Reserve(req) => var _ := Reserve(req);
          case Mutate(kind, m, now) => var _ := Mutate(kind, m, now);
          case ExpireStale(now) => var _ := ExpireStale(now);
        }
      }
      assert ops[..|ops|] == ops;
    }
  }

  lemma UnlistedPolicyEmpty(b: Book, p: PolicyId)
    requires BookOk(b) && p !in b.policies
    ensures Reserved(b.rows, p) == 0 && Spent(b.rows, p) == 0
  {
    UnlistedPolicyUnused(b, p);
    TotalNonNegative(b.rows, ReservedFor(p));
    TotalNonNegative(b.rows, CommittedFor(p));
  }

  function ExpireOneIn(b: Book, id: string): Book
    requires id in b.rows
  {
    Book(b.policies, b.rows[id := ExpiredRow(b.rows[id])],
         Log(b.events, ExpireKey(id, b.rows[id].generation + 1), None))
  }

  function ExpireFold(b: Book, ids: seq<string>): Book
    decreases |ids|
  {
    if ids == [] then b
    else
      var c := ExpireFold(b, ids[..|ids| - 1]);
      if ids[|ids| - 1] in c.rows then ExpireOneIn(c, ids[|ids| - 1]) else c
  }

  lemma FoldNext(b: Book, ids: seq<string>, id: string)
    requires Distinct(ids) && id !in ids && id in ExpireFold(b, ids).rows
    ensures ExpireFold(b, ids + [id]) == ExpireOneIn(ExpireFold(b, ids), id) && Distinct(ids + [id])
  {
    assert (ids + [id])[..|ids|] == ids;
  }

  /** Folding expires exactly the listed rows. */
  lemma {:induction false} FoldOnRow(b: Book, ids: seq<string>, id: string)
    requires Distinct(ids)
    ensures ExpireFold(b, ids).rows.Keys == b.rows.Keys && ExpireFold(b, ids).policies == b.policies
    ensures id in b.rows ==> ExpireFold(b, ids).rows[id] == if id in ids then ExpiredRow(b.rows[id]) else b.rows[id]
    decreases |ids|
  {
    if ids != [] {
      var init, last := ids[..|ids| - 1], ids[|ids| - 1];
      FoldOnRow(b, init, id);
      assert id in ids <==> id in init || id == last;
    }
  }

  function ToSet(ids: seq<string>): (s: set<string>)
    ensures forall id :: id in s <==> id in ids
  {
    if ids == [] then {} else ToSet(ids[..|ids| - 1]) + {ids[|ids| - 1]}
  }

  lemma {:induction false} FoldOnLog(b: Book, ids: seq<string>)
    requires Distinct(ids) && forall id :: id in ids ==> id in b.rows
    ensures ExpireFold(b, ids).events == LogAll(b.events, ExpireKeys(b.rows, ToSet(ids)))
    decreases |ids|
  {
    if ids == [] {
      assert ExpireKeys(b.rows, {}) == {};
    } else {
      var init, last := ids[..|ids| - 1], ids[|ids| - 1];
      FoldOnLog(b, init);
      FoldOnRow(b, init, last);
      LogAllNext(b, ToSet(init), last);
    }
  }

  lemma LogAllNext(b: Book, done: set<string>, id: string)
    requires id in b.rows
    ensures Log(LogAll(b.events, ExpireKeys(b.rows, done)), ExpireKey(id, b.rows[id].generation + 1), None)
         == LogAll(b.events, ExpireKeys(b.rows, done + {id}))
  {}

  lemma FoldIsStep(b: Book, ids: seq<string>, now: Time)
    requires Distinct(ids) && forall id :: id in ids <==> id in DueIds(b.rows, now)
    ensures ExpireFold(b, ids) == ExpireStep(b, now)
  {
    FoldOnLog(b, ids);
    assert DueIds(b.rows, now) == ToSet(ids);
    FoldOnRow(b, ids, "");
    forall id | id in b.rows ensures ExpireFold(b, ids).rows[id] == ExpireRow(b.rows[id], now) {
      FoldOnRow(b, ids, id);
    }
    assert ExpireFold(b, ids).rows == ExpireStep(b, now).rows;
  }
}
