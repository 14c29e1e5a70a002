/** Runs that show why admission needs non-negative requests and a rollback. */
module AdmissionExamples {
  import opened Common
  import opened AdmissionModel
  import opened AdmissionSafety

  const AllDead: Probe := (id, r) => Dead

  /** A request for one worker with one process, and a lease of 100 seconds. */
  function Ask(rss: int): Request {
    Request("p", Some(Worker), 1, rss, 0.0, "", 100)
  }

  /** `n` workers with a process each and `rss` bytes. */
  predicate Amounts(v: View, n: int, rss: int) {
    v.workers == n && v.processes == n && v.rss == rss && v.verifiers == 0 && v.localTests == 0 && v.cpu == 0.0
  }

  predicate IsBudget(budget: View, n: int, rss: int) {
    budget.workers == n && budget.processes == n && budget.rss == rss && budget.verifiers >= 0
    && budget.localTests >= 0 && budget.cpu >= 0.0
  }

  lemma AmountsFitIff(budget: View, v: View, m: int, size: int, n: int, rss: int)
    requires IsBudget(budget, m, size) && Amounts(v, n, rss)
    ensures Fits(budget, v) <==> n <= m && rss <= size
  {}

  lemma OneMore(v: View, n: int, rss: int, more: int, id: string, now: Time)
    requires Amounts(v, n, rss)
    ensures Amounts(Add(WeightIn(NewRow(Ask(more), id, now), COUNTED), v), n + 1, rss + more)
  {}

  /** A claim without a key is decided by the budget alone. */
  lemma ClaimAdmitted(budget: View, m: int, size: int, s: Store, current: Rows, n: int, rss: int, more: int,
                      id: string, now: Time)
    requires IsBudget(budget, m, size) && current == Refresh(s.rows, now, AllDead)
    requires Amounts(Sum(current, COUNTED), n, rss) && n + 1 <= m && rss + more <= size
    requires id !in s.rows && !KeyTaken(current, id)
    ensures Step(budget, s, Claim(Ask(more), id, now, AllDead)) == s.(rows := current[id := NewRow(Ask(more), id, now)])
    ensures Amounts(Sum(current[id := NewRow(Ask(more), id, now)], COUNTED), n + 1, rss + more)
  {
    assert Trim("p") == "p";
    assert Reasons(budget, Sum(current, COUNTED), Ask(more)) == [];
    SumInsert(current, COUNTED, id, NewRow(Ask(more), id, now));
    OneMore(Sum(current, COUNTED), n, rss, more, id, now);
  }

  lemma FirstClaim(budget: View, m: int, size: int, more: int, id: string)
    requires IsBudget(budget, m, size) && 1 <= m && more <= size
    ensures Step(budget, Store(map[], {}), Claim(Ask(more), id, 0, AllDead))
         == Store(map[id := NewRow(Ask(more), id, 0)], {})
    ensures Amounts(Sum(map[id := NewRow(Ask(more), id, 0)], COUNTED), 1, more)
  {
    var none: Rows := map[];
    ClaimAdmitted(budget, m, size, Store(none, {}), none, 0, 0, more, id, 0);
    assert none[id := NewRow(Ask(more), id, 0)] == map[id := NewRow(Ask(more), id, 0)];
  }

  // ----- Negative requests -----

  /** Both claims of a run are admitted: the first asks for `low` bytes, the second for `high`. */
  lemma SecondClaim(budget: View, size: int, low: int, high: int, a: string, b: string)
    requires IsBudget(budget, 2, size) && low <= size && low + high <= size && a != b
    ensures var s := Store(map[a := NewRow(Ask(low), a, 0)], {});
      && Step(budget, s, Claim(Ask(high), b, 0, AllDead)) == s.(rows := s.rows[b := NewRow(Ask(high), b, 0)])
      && Amounts(Sum(s.rows[b := NewRow(Ask(high), b, 0)], COUNTED), 2, low + high)
  {
    FirstClaim(budget, 2, size, low, a);
    var rows := map[a := NewRow(Ask(low), a, 0)];
    assert Refresh(rows, 0, AllDead) == rows;
    ClaimAdmitted(budget, 2, size, Store(rows, {}), rows, 1, low, high, b, 0);
  }

  lemma WithoutOne(v: View, total: View, n: int, rss: int, low: int, id: string)
    requires Amounts(total, n + 1, rss + low) && Add(v, Weight(NewRow(Ask(low), id, 0))) == total
    ensures Amounts(v, n, rss)
  {}

  lemma ReleaseFirst(rows: Rows, a: string, low: int, high: int)
    requires a in rows && rows[a] == NewRow(Ask(low), a, 0) && Amounts(Sum(rows, COUNTED), 2, low + high)
    ensures Amounts(Sum(ReleaseStep(rows, a, 0), COUNTED), 1, high)
  {
    AfterRelease(rows, a);
    WithoutOne(Sum(ReleaseStep(rows, a, 0), COUNTED), Sum(rows, COUNTED), 1, high, low, a);
  }

  /** For any negative request: a claim for `low` bytes makes room for one that is larger than
      the budget; releasing the first leaves the second alone above the budget. */
  lemma NegativeClaimBreaksBound(budget: View, size: int, low: int, a: string, b: string)
    requires IsBudget(budget, 2, size) && size >= 0 && low < 0 && a != b
    ensures var first, second := Claim(Ask(low), a, 0, AllDead), Claim(Ask(size - low), b, 0, AllDead);
      var s := Step(budget, Step(budget, Store(map[], {}), first), second);
      Fits(budget, Sum(s.rows, COUNTED)) && !Fits(budget, Sum(Step(budget, s, Release(a, 0)).rows, COUNTED))
  {
    var rows := map[a := NewRow(Ask(low), a, 0)][b := NewRow(Ask(size - low), b, 0)];
    FirstClaim(budget, 2, size, low, a);
    SecondClaim(budget, size, low, size - low, a, b);
    ReleaseFirst(rows, a, low, size - low);
    AmountsFitIff(budget, Sum(rows, COUNTED), 2, size, 2, size);
    AmountsFitIff(budget, Sum(ReleaseStep(rows, a, 0), COUNTED), 2, size, 1, size - low);
  }

  // ----- The rollback -----

  function Lapsed(id: string): Row {
    NewRow(Ask(1), id, 0).(state := Expired)
  }

  lemma AddNothing(w: View, v: View)
    requires w == ZERO
    ensures Add(w, v) == v
  {}

  lemma NobodyCounts(rows: Rows, id: string)
    requires rows.Keys == {id} && rows[id].state == Expired
    ensures Amounts(Sum(rows, COUNTED), 0, 0)
  {
    var none := rows - {id};
    assert none == map[];
    RowSplit(rows, COUNTED, id);
    AddNothing(WeightIn(rows[id], COUNTED), Sum(none, COUNTED));
  }

  lemma TakeOver(budget: View, size: int, a: string, b: string)
    requires IsBudget(budget, 1, size) && size >= 1 && a != b
    ensures Step(budget, Store(map[a := NewRow(Ask(1), a, 0)], {}), Claim(Ask(1), b, 100, AllDead))
         == Store(map[a := Lapsed(a)][b := NewRow(Ask(1), b, 100)], {})
    ensures Amounts(Sum(map[a := Lapsed(a)][b := NewRow(Ask(1), b, 100)], COUNTED), 1, 1)
  {
    var held, lapsed := map[a := NewRow(Ask(1), a, 0)], map[a := Lapsed(a)];
    assert Refresh(held, 100, AllDead) == lapsed;
    NobodyCounts(lapsed, a);
    ClaimAdmitted(budget, 1, size, Store(held, {}), lapsed, 0, 0, 1, b, 100);
  }

  lemma TwoDoNotFit(budget: View, size: int, v: View, id: string)
    requires IsBudget(budget, 1, size) && Amounts(v, 1, 1)
    ensures !Fits(budget, Add(v, Weight(Lapsed(id))))
  {}

  /** One worker slot: `a` lapses and is known dead, `b` takes the slot. Had a failed
      ResolveAttention of `a` kept its write, two workers would count. */
  lemma UnrolledResolveBreaksBound(budget: View, size: int, a: string, b: string)
    requires IsBudget(budget, 1, size) && size >= 1 && a != b
    ensures var first, second := Claim(Ask(1), a, 0, AllDead), Claim(Ask(1), b, 100, AllDead);
      var s := Step(budget, Step(budget, Store(map[], {}), first), second);
      && Fits(budget, Sum(s.rows, COUNTED)) && a in s.rows && s.rows[a].state == Expired
      && !Fits(budget, Sum(s.rows[a := s.rows[a].(state := Attention)], COUNTED))
  {
    var rows := map[a := Lapsed(a)][b := NewRow(Ask(1), b, 100)];
    FirstClaim(budget, 1, size, 1, a);
    TakeOver(budget, size, a, b);
    AmountsFitIff(budget, Sum(rows, COUNTED), 1, size, 1, 1);
    UnrolledResolveFitsIff(budget, rows, a);
    TwoDoNotFit(budget, size, Sum(rows, COUNTED), a);
  }
}
