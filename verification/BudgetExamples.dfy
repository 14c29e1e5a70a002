/** Books in which the properties that fail do fail. */
module BudgetExamples {
  import opened Common
  import opened BudgetModel
  import opened BudgetSafety

  function HardPolicy(id: PolicyId, version: string, ceiling: int): PolicyInput {
    PolicyInput(id, Some(0), "q", "w", version, Hard, ceiling)
  }

  function Ask(value: int): ReserveRequest {
    ReserveRequest([Some(0)], "q", "w", value, Some(10), "k", "r", Exact, "", "")
  }

  lemma EmptyBookOk()
    ensures BookOk(EMPTY_BOOK) && forall p :: Used(EMPTY_BOOK, p) == 0
  {}

  /** A fresh request that every applicable policy has room for is granted and charged. */
  lemma Granted(h: IdHash, b: Book, req: ReserveRequest)
    requires BookOk(b) && RequestWellFormed(req) && ConfidenceSuffices(req)
    requires !Known(b, req.key, Primary(Applicable(b, req))) && NewId(h, b, req) !in b.rows
    requires forall p :: p in Applicable(b, req) ==> req.value <= b.policies[p].ceiling - Used(b, p)
    ensures var c := ReserveStep(h, b, req);
      && BookOk(c) && c.policies == b.policies && c.rows == b.rows[NewId(h, b, req) := NewRow(req, Applicable(b, req), false)]
      && (forall p :: p in Applicable(b, req) ==> Used(c, p) == Used(b, p) + req.value)
  {
    ReserveKeepsBook(h, b, req);
    assert Blocking(b, req) == {};
    ReserveTakesIff(h, b, req);
    forall p | p in Applicable(b, req) ensures Used(ReserveStep(h, b, req), p) == Used(b, p) + req.value {
      UseAfterReserve(h, b, req, p);
    }
  }

  // ----- One request, charged twice -----

  lemma FirstCharge(h: IdHash, hi: PolicyId, v: int, ceiling: int)
    requires 0 <= v <= ceiling
    ensures var b := UpsertStep(EMPTY_BOOK, HardPolicy(hi, "1", ceiling));
      var c := ReserveStep(h, b, Ask(v));
      && BookOk(c) && c.policies == map[hi := Policy(0, "q", "w", "1", Hard, ceiling)] && Used(c, hi) == v
      && c.rows == map[h.base("k", Some(hi), "r") := NewRow(Ask(v), {hi}, false)]
  {
    EmptyBookOk();
    var b := UpsertStep(EMPTY_BOOK, HardPolicy(hi, "1", ceiling));
    UpsertKeepsBook(EMPTY_BOOK, HardPolicy(hi, "1", ceiling));
    assert b.policies == map[hi := Policy(0, "q", "w", "1", Hard, ceiling)] && b.rows == map[];
    assert Applicable(b, Ask(v)) == {hi};
    assert Trim("k") == "k";
    Granted(h, b, Ask(v));
  }

  lemma SecondCharge(h: IdHash, b: Book, lo: PolicyId, hi: PolicyId, v: int, ceiling: int)
    requires lo < hi && 0 <= v && 2 * v <= ceiling && h.base("k", Some(lo), "r") != h.base("k", Some(hi), "r")
    requires BookOk(b) && b.policies == map[hi := Policy(0, "q", "w", "1", Hard, ceiling)] && Used(b, hi) == v
    requires b.rows == map[h.base("k", Some(hi), "r") := NewRow(Ask(v), {hi}, false)]
    ensures Used(ReserveStep(h, UpsertStep(b, HardPolicy(lo, "2", ceiling)), Ask(v)), hi) == 2 * v
  {
    var input := HardPolicy(lo, "2", ceiling);
    var c := UpsertStep(b, input);
    assert "1"[0] != "2"[0];
    UpsertKeepsBook(b, input);
    UnlistedPolicyUnused(b, lo);
    assert c.policies == b.policies[lo := Policy(0, "q", "w", "2", Hard, ceiling)] && c.rows == b.rows;
    BothApply(c, lo, hi, v, ceiling);
    assert !Known(c, "k", Some(lo));
    assert NewId(h, c, Ask(v)) == h.base("k", Some(lo), "r");
    assert Trim("k") == "k";
    Granted(h, c, Ask(v));
  }

  lemma BothApply(b: Book, lo: PolicyId, hi: PolicyId, v: int, ceiling: int)
    requires lo < hi
    requires b.policies == map[hi := Policy(0, "q", "w", "1", Hard, ceiling)][lo := Policy(0, "q", "w", "2", Hard, ceiling)]
    ensures Applicable(b, Ask(v)) == {lo, hi} && Primary({lo, hi}) == Some(lo) && Primary({hi}) == Some(hi)
  {}

  /** With a hash that tells first policies apart: a policy is added that sorts before the one
      that was charged, the same request is sent again, and the first policy is charged twice. */
  lemma NewPolicyChargesTwice(h: IdHash, lo: PolicyId, hi: PolicyId, v: int, ceiling: int)
    requires lo < hi && 0 <= v && 2 * v <= ceiling && h.base("k", Some(lo), "r") != h.base("k", Some(hi), "r")
    ensures var once := ReserveStep(h, UpsertStep(EMPTY_BOOK, HardPolicy(hi, "1", ceiling)), Ask(v));
      var twice := ReserveStep(h, UpsertStep(once, HardPolicy(lo, "2", ceiling)), Ask(v));
      Used(once, hi) == v && Used(twice, hi) == 2 * v
  {
    FirstCharge(h, hi, v, ceiling);
    SecondCharge(h, ReserveStep(h, UpsertStep(EMPTY_BOOK, HardPolicy(hi, "1", ceiling)), Ask(v)), lo, hi, v, ceiling);
  }

  // ----- A ceiling below what is in use -----

  /** The ceiling of a policy with something in use is lowered below it. */
  lemma LoweredCeilingBreaksBound(h: IdHash, p: PolicyId, v: int, ceiling: int, lower: int)
    requires 0 <= lower < v <= ceiling
    ensures var b := ReserveStep(h, UpsertStep(EMPTY_BOOK, HardPolicy(p, "1", ceiling)), Ask(v));
      HardBounded(b) && !HardBounded(UpsertStep(b, HardPolicy(p, "1", lower)))
  {
    FirstCharge(h, p, v, ceiling);
    UpsertKeepsHardBoundIff(ReserveStep(h, UpsertStep(EMPTY_BOOK, HardPolicy(p, "1", ceiling)), Ask(v)), HardPolicy(p, "1", lower));
  }

  // ----- Requests that no policy applies to -----

  lemma Uncharged(h: IdHash, req: ReserveRequest)
    requires RequestWellFormed(req) && ConfidenceSuffices(req)
    ensures var b := ReserveStep(h, EMPTY_BOOK, req);
      BookOk(b) && b.rows == map[NewId(h, EMPTY_BOOK, req) := NewRow(req, {}, false)] && b.events == map[ReserveKey(req.key) := None]
  {
    EmptyBookOk();
    assert Applicable(EMPTY_BOOK, req) == {};
    Granted(h, EMPTY_BOOK, req);
    assert Blocking(EMPTY_BOOK, req) == {};
  }

  /** A reservation of nothing is open, and from its lease on no run touches it. */
  lemma ZeroReservationIsStuck(h: IdHash, req: ReserveRequest)
    requires RequestWellFormed(req) && ConfidenceSuffices(req) && req.value == 0
    ensures var b, id := ReserveStep(h, EMPTY_BOOK, req), NewId(h, EMPTY_BOOK, req);
      && id in b.rows && Open(b.rows[id]) && b.rows[id].reserved == 0
      && (forall ops :: AllNotBefore(ops, req.lease.value) ==> Untouched(h, b, ops, id))
  {
    Uncharged(h, req);
    LapsedStuckIff(h, ReserveStep(h, EMPTY_BOOK, req), NewId(h, EMPTY_BOOK, req));
  }

  /** A commit of a fresh reservation takes effect; sent again word for word it is stale. */
  lemma RepeatedCommitIsStale(h: IdHash, req: ReserveRequest, m: MutationRequest, now: Time)
    requires RequestWellFormed(req) && ConfidenceSuffices(req) && now < req.lease.value
    requires m.id == NewId(h, EMPTY_BOOK, req) && m.id != "" && m.key != "" && m.generation == 1 && 0 <= m.value <= req.value
    ensures var b := ReserveStep(h, EMPTY_BOOK, req);
      && MutateStep(b, Commit, m, now) != b
      && MutateAnswer(MutateStep(b, Commit, m, now), Commit, m, now) == Failed(LeaseExpired)
  {
    Uncharged(h, req);
    var b := ReserveStep(h, EMPTY_BOOK, req);
    assert Takes(b, Commit, m, now);
    RepeatedMutation(b, Commit, m, now, now);
  }
}
