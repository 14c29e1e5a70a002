/** What every run of admission transactions keeps. */
module AdmissionSafety {
  import opened Sums
  import opened AdmissionModel

  // ----- Sums -----

  lemma AddSwappable()
    ensures Swappable(Add)
  {
    forall a: View, b: View, c: View ensures Swaps(Add, a, b, c) {
      assert Add(a, Add(b, c)) == Add(b, Add(a, c));
    }
  }

  lemma RowSplit(rows: Rows, states: set<State>, k: string)
    requires k in rows
    ensures Sum(rows, states) == Add(WeightIn(rows[k], states), Sum(rows - {k}, states))
  {
    AddSwappable();
    SumSplit(rows, WeightFn(states), ZERO, Add, k);
  }

  lemma SumInsert(rows: Rows, states: set<State>, k: string, r: Row)
    requires k !in rows
    ensures Sum(rows[k := r], states) == Add(WeightIn(r, states), Sum(rows, states))
  {
    var next := rows[k := r];
    assert next - {k} == rows;
    RowSplit(next, states, k);
  }

  /** Rows whose weight does not grow have a sum that does not grow. */
  lemma {:induction false} SumMonotone(rows: Rows, next: Rows, states: set<State>)
    requires rows.Keys == next.Keys
    requires forall k :: k in rows ==> AtMost(WeightIn(next[k], states), WeightIn(rows[k], states))
    ensures AtMost(Sum(next, states), Sum(rows, states))
    decreases |rows|
  {
    if rows == map[] {
      assert next == map[];
    } else {
      var k :| k in rows;
      RowSplit(rows, states, k);
      RowSplit(next, states, k);
      SumMonotone(rows - {k}, next - {k}, states);
    }
  }

  lemma AddPairs(a: View, b: View, c: View, d: View)
    ensures Add(Add(a, b), Add(c, d)) == Add(Add(a, c), Add(b, d))
  {}

  lemma WeightOfBoth(r: Row)
    ensures WeightIn(r, COUNTED) == Add(WeightIn(r, {Active}), WeightIn(r, {Attention}))
  {}

  lemma {:induction false} SumOfBoth(rows: Rows)
    ensures Sum(rows, COUNTED) == Add(Sum(rows, {Active}), Sum(rows, {Attention}))
    decreases |rows|
  {
    if rows == map[] {
      assert Sum(rows, COUNTED) == Sum(rows, {Active}) == Sum(rows, {Attention}) == ZERO;
    } else {
      var k :| k in rows;
      var rest := rows - {k};
      SumOfBoth(rest);
      WeightOfBoth(rows[k]);
      AddPairs(WeightIn(rows[k], {Active}), WeightIn(rows[k], {Attention}), Sum(rest, {Active}), Sum(rest, {Attention}));
      RowSplit(rows, COUNTED, k);
      RowSplit(rows, {Active}, k);
      RowSplit(rows, {Attention}, k);
    }
  }

  // ----- The budget bound -----

  predicate RowNonNegative(r: Row) {
    r.processes >= 0 && r.rss >= 0 && r.cpu >= 0.0
  }

  ghost predicate Safe(budget: View, s: Store) {
    && Fits(budget, Sum(s.rows, COUNTED))
    && (forall id :: id in s.rows ==> RowNonNegative(s.rows[id]))
  }

  predicate NonNegative(op: Op) {
    op.Claim? ==> op.req.rss >= 0 && op.req.cpu >= 0.0
  }

  /** A row keeps its resources; one that is not counted is never counted again. */
  predicate NoGrowth(r: Row, s: Row) {
    && s.role == r.role && s.processes == r.processes && s.rss == r.rss && s.cpu == r.cpu && s.key == r.key
    && (Counted(s) ==> Counted(r))
  }

  lemma NoGrowthFits(budget: View, s: Store, t: Store)
    requires Safe(budget, s) && s.rows.Keys == t.rows.Keys
    requires forall id :: id in s.rows ==> NoGrowth(s.rows[id], t.rows[id])
    ensures Safe(budget, t)
  {
    SumMonotone(s.rows, t.rows, COUNTED);
  }

  lemma AdmittedFits(budget: View, rows: Rows, req: Request, id: string, now: Time)
    requires Fits(budget, Sum(rows, COUNTED)) && req.role.Some? && req.rss >= 0 && req.cpu >= 0.0
    requires Reasons(budget, Sum(rows, COUNTED), req) == [] && id !in rows
    ensures Fits(budget, Sum(rows[id := NewRow(req, id, now)], COUNTED))
  {
    SumInsert(rows, COUNTED, id, NewRow(req, id, now));
  }

  lemma RefreshNoGrowth(rows: Rows, now: Time, probe: Probe)
    ensures forall id :: id in rows ==> NoGrowth(rows[id], Refresh(rows, now, probe)[id])
  {}

  lemma AddRotate(a: View, b: View, c: View)
    ensures Add(Add(a, c), b) == Add(Add(b, c), a)
  {}

  lemma SumReplace(rows: Rows, states: set<State>, k: string, r: Row)
    requires k in rows
    ensures Add(Sum(rows[k := r], states), WeightIn(rows[k], states)) == Add(Sum(rows, states), WeightIn(r, states))
  {
    var next := rows[k := r];
    assert next - {k} == rows - {k};
    RowSplit(rows, states, k);
    RowSplit(next, states, k);
    AddRotate(WeightIn(r, states), WeightIn(rows[k], states), Sum(rows - {k}, states));
  }

  /** The budget that `v` just fits into. */
  function Tight(v: View): View {
    v.(cpu := v.cpu - TOLERANCE)
  }

  lemma AfterRelease(rows: Rows, id: string)
    requires id in rows && Counted(rows[id])
    ensures Add(Sum(ReleaseStep(rows, id, 0), COUNTED), Weight(rows[id])) == Sum(rows, COUNTED)
  {
    SumReplace(rows, COUNTED, id, rows[id].(state := Released));
    AddZero(Sum(rows, COUNTED));
  }

  /** Why requests must not be negative: a reservation can be released under every budget
      that holds with it exactly if it asked for no negative memory and no negative CPU. */
  lemma ReleaseKeepsBoundIff(rows: Rows, id: string)
    requires id in rows && Counted(rows[id]) && rows[id].processes >= 0
    ensures (rows[id].rss >= 0 && rows[id].cpu >= 0.0) <==>
      forall budget :: Fits(budget, Sum(rows, COUNTED)) ==> Fits(budget, Sum(ReleaseStep(rows, id, 0), COUNTED))
  {
    AfterRelease(rows, id);
    assert Fits(Tight(Sum(rows, COUNTED)), Sum(rows, COUNTED));
  }

  /** Why the rollback matters: ResolveAttention writes an expired row back as
      attention-required before it returns its error. Had that write stayed, the row
      would count again, and the bound would hold only if there was still room for it. */
  lemma UnrolledResolveFitsIff(budget: View, rows: Rows, id: string)
    requires id in rows && rows[id].state == Expired
    ensures Fits(budget, Sum(rows[id := rows[id].(state := Attention)], COUNTED))
      <==> Fits(budget, Add(Sum(rows, COUNTED), Weight(rows[id])))
  {
    SumCountAgain(rows, COUNTED, id, rows[id].(state := Attention));
  }

  lemma SumCountAgain(rows: Rows, states: set<State>, k: string, r: Row)
    requires k in rows && WeightIn(rows[k], states) == ZERO
    ensures Sum(rows[k := r], states) == Add(Sum(rows, states), WeightIn(r, states))
  {
    SumReplace(rows, states, k, r);
    AddZero(Sum(rows[k := r], states));
  }

  lemma AddZero(a: View)
    ensures Add(a, ZERO) == a
  {}

  // ----- Failing closed -----

  /** What may take a counted row out of the count. */
  predicate Frees(op: Op, id: string, r: Row) {
    match op
    case Release(i, g) => i == id && (g == 0 || g == r.generation)
    case Resolve(i, release, probe) =>
      i == id && r.state == Attention && (probe(id, r) == Dead || (probe(id, r) == Live && release))
    case Claim(_, _, now, probe) => Overdue(r, now) && probe(id, r) == Dead
    case Renew(_, _, _, now, probe) => Overdue(r, now) && probe(id, r) == Dead
    case Observe(_, _) => false
  }

  lemma ClaimOnRow(budget: View, s: Store, op: Op, id: string)
    requires op.Claim? && id in s.rows
    ensures var t := Step(budget, s, op);
      id in t.rows && (t.rows[id] == s.rows[id] || t.rows[id] == RefreshRow(id, s.rows[id], op.now, op.probe))
  {}

  lemma RenewOnRow(budget: View, s: Store, op: Op, id: string)
    requires op.Renew? && id in s.rows
    ensures var t := Step(budget, s, op); var r := RefreshRow(id, s.rows[id], op.now, op.probe);
      && id in t.rows
      && (t.rows[id] == s.rows[id] || t.rows[id] == r.(generation := t.rows[id].generation, lease := t.rows[id].lease))
  {}

  /** Rows are never dropped, never counted again, and leave the count only by an
      explicit release, a resolution with known liveness, or a known-dead overdue lease. */
  lemma CapacityFreedOnlyBy(budget: View, s: Store, op: Op, id: string)
    requires id in s.rows
    ensures var t := Step(budget, s, op);
      && id in t.rows && NoGrowth(s.rows[id], t.rows[id])
      && (Counted(s.rows[id]) && !Counted(t.rows[id]) ==> Frees(op, id, s.rows[id]))
  {
    match op
    case Claim(_, _, _, _) => ClaimOnRow(budget, s, op, id);
    case Renew(_, _, _, _, _) => RenewOnRow(budget, s, op, id);
    case _ =>
  }

  lemma ClaimStaysSafe(budget: View, s: Store, op: Op)
    requires Safe(budget, s) && op.Claim? && NonNegative(op)
    ensures Safe(budget, Step(budget, s, op))
  {
    var current := Refresh(s.rows, op.now, op.probe);
    RefreshNoGrowth(s.rows, op.now, op.probe);
    NoGrowthFits(budget, s, s.(rows := current));
    if op.id !in s.rows && RequestValid(op.req) && Reasons(budget, Sum(current, COUNTED), op.req) == [] {
      AdmittedFits(budget, current, op.req, op.id, op.now);
    }
  }

  lemma StepStaysSafe(budget: View, s: Store, op: Op)
    requires Safe(budget, s) && NonNegative(op)
    ensures Safe(budget, Step(budget, s, op))
  {
    if op.Claim? {
      ClaimStaysSafe(budget, s, op);
    } else {
      var t := Step(budget, s, op);
      forall id | id in s.rows ensures id in t.rows && NoGrowth(s.rows[id], t.rows[id]) {
        CapacityFreedOnlyBy(budget, s, op, id);
      }
      NoGrowthFits(budget, s, t);
    }
  }

  /** Over every run with non-negative requests, active plus attention-required usage
      stays within budget in every dimension; the CPU tolerance does not add up. */
  lemma {:induction false} RunStaysSafe(budget: View, s: Store, ops: seq<Op>)
    requires Safe(budget, s) && forall i :: 0 <= i < |ops| ==> NonNegative(ops[i])
    ensures Safe(budget, Run(budget, s, ops))
    decreases |ops|
  {
    if ops != [] {
      RunStaysSafe(budget, s, ops[..|ops| - 1]);
      StepStaysSafe(budget, Run(budget, s, ops[..|ops| - 1]), ops[|ops| - 1]);
    }
  }

  /** A released reservation never changes again. */
  lemma {:induction false} ReleasedIsForever(budget: View, s: Store, ops: seq<Op>, id: string)
    requires id in s.rows && s.rows[id].state == Released
    ensures id in Run(budget, s, ops).rows && Run(budget, s, ops).rows[id] == s.rows[id]
    decreases |ops|
  {
    if ops != [] {
      ReleasedIsForever(budget, s, ops[..|ops| - 1], id);
    }
  }

  /** A stale generation changes nothing at all. */
  lemma StaleGenerationChangesNothing(budget: View, s: Store, op: Op)
    requires (op.Renew? && op.id in s.rows && op.generation != s.rows[op.id].generation)
          || (op.Release? && op.id in s.rows && op.generation != 0 && op.generation != s.rows[op.id].generation)
    ensures Step(budget, s, op) == s
  {}

  ghost predicate NeverKnows(op: Op) {
    match op
    case Claim(_, _, _, probe) => forall id, r :: probe(id, r) == Unknown
    case Renew(_, _, _, _, probe) => forall id, r :: probe(id, r) == Unknown
    case Resolve(_, _, probe) => forall id, r :: probe(id, r) == Unknown
    case _ => true
  }

  /** With a probe that never knows, no reservation expires and only Release frees. */
  lemma {:induction false} UnknownProbeFailsClosed(budget: View, s: Store, ops: seq<Op>, id: string)
    requires forall i :: 0 <= i < |ops| ==> NeverKnows(ops[i])
    requires id in s.rows && Counted(s.rows[id]) && forall i :: 0 <= i < |ops| ==> !(ops[i].Release? && ops[i].id == id)
    ensures id in Run(budget, s, ops).rows && Counted(Run(budget, s, ops).rows[id])
    decreases |ops|
  {
    if ops != [] {
      UnknownProbeFailsClosed(budget, s, ops[..|ops| - 1], id);
      assert NeverKnows(ops[|ops| - 1]);
      CapacityFreedOnlyBy(budget, Run(budget, s, ops[..|ops| - 1]), ops[|ops| - 1], id);
    }
  }

  predicate NoneExpired(s: Store) {
    forall id :: id in s.rows ==> s.rows[id].state != Expired
  }

  lemma {:induction false} UnknownProbeNeverExpires(budget: View, s: Store, ops: seq<Op>)
    requires NoneExpired(s) && forall i :: 0 <= i < |ops| ==> NeverKnows(ops[i])
    ensures NoneExpired(Run(budget, s, ops))
    decreases |ops|
  {
    if ops != [] {
      UnknownProbeNeverExpires(budget, s, ops[..|ops| - 1]);
      assert NeverKnows(ops[|ops| - 1]);
    }
  }

  // ----- Keys and enforcement -----

  lemma StepKeepsKeysUnique(budget: View, s: Store, op: Op)
    requires KeysUnique(s.rows)
    ensures KeysUnique(Step(budget, s, op).rows)
  {
    var t := Step(budget, s, op);
    forall i, j | i in t.rows && j in t.rows && t.rows[i].key == t.rows[j].key ensures i == j {
      if i in s.rows {
        CapacityFreedOnlyBy(budget, s, op, i);
      }
      if j in s.rows {
        CapacityFreedOnlyBy(budget, s, op, j);
      }
    }
  }

  ghost function EmitCount(budget: View, s: Store, ops: seq<Op>, id: string, m: Metric): nat
    decreases |ops|
  {
    if ops == [] then 0
    else
      var init, op := ops[..|ops| - 1], ops[|ops| - 1];
      EmitCount(budget, s, init, id, m)
      + if op.Observe? && op.id == id && Emits(Run(budget, s, init), id, op.use, m) then 1 else 0
  }

  /** At most one enforcement request per reservation and metric, in any run. */
  lemma {:induction false} EnforcedOnce(budget: View, s: Store, ops: seq<Op>, id: string, m: Metric)
    ensures EmitCount(budget, s, ops, id, m)
         <= if (id, m) in Run(budget, s, ops).enforced && (id, m) !in s.enforced then 1 else 0
    ensures s.enforced <= Run(budget, s, ops).enforced
    decreases |ops|
  {
    if ops != [] {
      EnforcedOnce(budget, s, ops[..|ops| - 1], id, m);
    }
  }
}
