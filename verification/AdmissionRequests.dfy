/** What each admission operation does, in terms of what was asked for: an admitted reservation
    is charged with exactly its request, and the requests still counted stay within budget. */
module AdmissionRequests {
  import opened Common
  import opened Sums
  import opened AdmissionModel
  import opened AdmissionSafety

  /** One slot of the role, at least one process, and the memory and CPU asked for. */
  function Asked(req: Request): View
    requires req.role.Some?
  {
    View(if req.role == Some(Worker) then 1 else 0, if req.role == Some(Verifier) then 1 else 0,
         if req.role == Some(LocalTest) then 1 else 0, if req.processes <= 0 then 1 else req.processes, req.rss, req.cpu)
  }

  /** The claim enters a new reservation. */
  ghost predicate Admits(budget: View, s: Store, op: Op) {
    op.Claim? && op.id !in s.rows && op.id in Step(budget, s, op).rows
  }

  lemma AdmitsOn(budget: View, s: Store, op: Op)
    requires op.Claim?
    ensures Admits(budget, s, op) <==>
      && RequestValid(op.req) && !ProbeFails(s.rows, op.now, op.probe)
      && var current := Refresh(s.rows, op.now, op.probe);
         && !Recognised(current, op.req, Active) && !Recognised(current, op.req, Attention)
         && Reasons(budget, Sum(current, COUNTED), op.req) == [] && op.id !in s.rows
         && !KeyTaken(current, StoredKey(op.req, op.id))
  {}

  /** The caller is told so exactly then. */
  lemma AdmittedAnswer(budget: View, s: Store, op: Op, out: Decision)
    requires op.Claim? && ClaimAnswers(budget, s.rows, op.req, op.id, op.now, op.probe, out)
    ensures out.Admitted? <==> Admits(budget, s, op)
    ensures out.Admitted? ==> out.id == op.id
  {
    AdmitsOn(budget, s, op);
  }

  /** The new reservation is what was asked for. */
  lemma AdmittedRow(budget: View, s: Store, op: Op)
    requires Admits(budget, s, op)
    ensures op.req.role.Some?
    ensures var r := Step(budget, s, op).rows[op.id];
      && r.role == op.req.role.value && r.state == Active && r.generation == 1 && r.reason == ""
      && r.processes == (if op.req.processes <= 0 then 1 else op.req.processes) && r.rss == op.req.rss && r.cpu == op.req.cpu
      && r.lease == op.now + (if op.req.ttl <= 0 then 300 else op.req.ttl)
      && r.key == (if Blank(op.req.key) then op.id else Trim(op.req.key))
    ensures forall id :: id in Step(budget, s, op).rows && id != op.id ==>
      id in s.rows && Step(budget, s, op).rows[id] == RefreshRow(id, s.rows[id], op.now, op.probe)
  {
    AdmitsOn(budget, s, op);
  }

  lemma WeightAsked(req: Request, r: Row)
    requires req.role == Some(r.role) && r.state == Active && r.rss == req.rss && r.cpu == req.cpu
    requires r.processes == if req.processes <= 0 then 1 else req.processes
    ensures WeightIn(r, COUNTED) == Weight(r) == Asked(req)
  {}

  /** The counted total grows by exactly the request. */
  lemma AdmittedCharge(budget: View, s: Store, op: Op)
    requires Admits(budget, s, op)
    ensures op.req.role.Some?
    ensures Sum(Step(budget, s, op).rows, COUNTED) == Add(Asked(op.req), Sum(Refresh(s.rows, op.now, op.probe), COUNTED))
  {
    AdmitsOn(budget, s, op);
    AdmittedRow(budget, s, op);
    var current := Refresh(s.rows, op.now, op.probe);
    var r := Step(budget, s, op).rows[op.id];
    assert Step(budget, s, op).rows == current[op.id := r];
    SumInsert(current, COUNTED, op.id, r);
    WeightAsked(op.req, r);
  }

  // ----- Admission is decided by the six comparisons -----

  predicate RoleFits(budget: View, used: View, role: Role) {
    match role
    case Worker => used.workers + 1 <= budget.workers
    case Verifier => used.verifiers + 1 <= budget.verifiers && !(used.workers > 0 && budget.verifiers == 0)
    case LocalTest => used.localTests + 1 <= budget.localTests
  }

  /** Room for the request in its role, in processes, and, where it asks for some, in memory
      and CPU. */
  predicate Room(budget: View, used: View, req: Request)
    requires req.role.Some?
  {
    && RoleFits(budget, used, req.role.value)
    && used.processes + (if req.processes <= 0 then 1 else req.processes) <= budget.processes
    && (req.rss <= 0 || used.rss + req.rss <= budget.rss)
    && (req.cpu <= 0.0 || used.cpu + req.cpu <= budget.cpu + 0.000000001)
  }

  lemma NoReasonsIff(budget: View, used: View, req: Request)
    requires req.role.Some?
    ensures Reasons(budget, used, req) == [] <==> Room(budget, used, req)
  {}

  lemma InReasons(budget: View, used: View, req: Request, r: Reason)
    requires req.role.Some?
    ensures r in Reasons(budget, used, req) <==>
      || r in SlotReasons(budget, used, req.role.value)
      || (r == ProcessBudget && used.processes + (if req.processes <= 0 then 1 else req.processes) > budget.processes)
      || (r == RssBudget && req.rss > 0 && used.rss + req.rss > budget.rss)
      || (r == CpuBudget && req.cpu > 0.0 && used.cpu + req.cpu > budget.cpu + TOLERANCE)
  {}

  /** Which reasons a denial lists. */
  lemma ReasonsMean(budget: View, used: View, req: Request)
    requires req.role.Some?
    ensures var rs, role := Reasons(budget, used, req), req.role.value;
      && (WorkerBudget in rs <==> role == Worker && used.workers + 1 > budget.workers)
      && (VerifierBlocked in rs <==> role == Verifier && used.workers > 0 && budget.verifiers == 0)
      && (VerifierBudget in rs <==> role == Verifier && !(used.workers > 0 && budget.verifiers == 0)
                                    && used.verifiers + 1 > budget.verifiers)
      && (LocalTestBudget in rs <==> role == LocalTest && used.localTests + 1 > budget.localTests)
      && (ProcessBudget in rs <==> used.processes + (if req.processes <= 0 then 1 else req.processes) > budget.processes)
      && (RssBudget in rs <==> req.rss > 0 && used.rss + req.rss > budget.rss)
      && (CpuBudget in rs <==> req.cpu > 0.0 && used.cpu + req.cpu > budget.cpu + TOLERANCE)
  {
    forall r: Reason
      ensures r in Reasons(budget, used, req) <==>
        || r in SlotReasons(budget, used, req.role.value)
        || (r == ProcessBudget && used.processes + (if req.processes <= 0 then 1 else req.processes) > budget.processes)
        || (r == RssBudget && req.rss > 0 && used.rss + req.rss > budget.rss)
        || (r == CpuBudget && req.cpu > 0.0 && used.cpu + req.cpu > budget.cpu + TOLERANCE)
    {
      InReasons(budget, used, req, r);
    }
  }

  /** A row under the key as it was sent that still holds, or may hold, capacity. */
  predicate Holding(rows: Rows, key: string) {
    key != "" && exists id :: id in rows && rows[id].key == key && (rows[id].state == Active || rows[id].state == Attention)
  }

  /** A claim is admitted if and only if it is valid, no probe failed, its key holds nothing, there
      is room for it beside what is counted after overdue leases were looked at, and identifier
      and key are free. */
  lemma AdmittedIff(budget: View, s: Store, op: Op)
    requires op.Claim?
    ensures Admits(budget, s, op) <==>
      && !Blank(op.req.project) && op.req.role.Some? && op.id !in s.rows
      && (forall id :: id in s.rows && s.rows[id].state == Active && s.rows[id].lease <= op.now ==>
            op.probe(id, s.rows[id]) != ProbeError)
      && var current := Refresh(s.rows, op.now, op.probe);
         && !Holding(current, op.req.key) && Room(budget, Sum(current, COUNTED), op.req)
         && !exists id :: id in current && current[id].key == (if Blank(op.req.key) then op.id else Trim(op.req.key))
  {
    AdmitsOn(budget, s, op);
    if op.req.role.Some? {
      NoReasonsIff(budget, Sum(Refresh(s.rows, op.now, op.probe), COUNTED), op.req);
    }
  }

  /** What else a claim can come to. A replay and a denial keep what was found out about overdue
      leases; an invalid request, a key that needs attention and a failure leave the table as it was. */
  lemma ClaimOtherwise(budget: View, s: Store, op: Op, out: Decision)
    requires op.Claim? && ClaimAnswers(budget, s.rows, op.req, op.id, op.now, op.probe, out)
    ensures var current, t := Refresh(s.rows, op.now, op.probe), Step(budget, s, op).rows;
      && (out.Replayed? ==> t == current && out.id in current && current[out.id].key == op.req.key != ""
                            && current[out.id].state == Active)
      && (out.Denied? ==> t == current && op.req.role.Some? && out.reasons == Reasons(budget, Sum(current, COUNTED), op.req)
                          && !Room(budget, Sum(current, COUNTED), op.req))
      && (out.NeedsAttention? ==> t == s.rows && out.id in current && current[out.id].key == op.req.key != ""
                                  && current[out.id].state == Attention)
      && (out == Faulty || out == Invalid ==> t == s.rows)
      && (out == Invalid <==> Blank(op.req.project) || op.req.role.None?)
  {
    if op.req.role.Some? {
      NoReasonsIff(budget, Sum(Refresh(s.rows, op.now, op.probe), COUNTED), op.req);
    }
  }

  // ----- The requests behind the table -----

  /** The request each reservation of the run was admitted with. */
  ghost function Admissions(budget: View, s: Store, ops: seq<Op>): map<string, Request>
    decreases |ops|
  {
    if ops == [] then map[]
    else
      var init, op := ops[..|ops| - 1], ops[|ops| - 1];
      var known := Admissions(budget, s, init);
      if Admits(budget, Run(budget, s, init), op) then known[op.id := op.req] else known
  }

  const NONE := Store(map[], {})

  predicate Backed(rows: Rows, reqs: map<string, Request>) {
    forall id :: id in rows ==> id in reqs && reqs[id].role.Some? && Weight(rows[id]) == Asked(reqs[id])
  }

  lemma OnlyClaimsEnter(budget: View, s: Store, op: Op, id: string)
    requires id !in s.rows && id in Step(budget, s, op).rows
    ensures Admits(budget, s, op) && id == op.id
  {}

  lemma StepBacked(budget: View, s: Store, op: Op, reqs: map<string, Request>)
    requires Backed(s.rows, reqs)
    ensures Backed(Step(budget, s, op).rows, if Admits(budget, s, op) then reqs[op.id := op.req] else reqs)
  {
    var t := Step(budget, s, op);
    forall id | id in t.rows
      ensures var all := if Admits(budget, s, op) then reqs[op.id := op.req] else reqs;
        id in all && all[id].role.Some? && Weight(t.rows[id]) == Asked(all[id])
    {
      if id in s.rows {
        CapacityFreedOnlyBy(budget, s, op, id);
      } else {
        OnlyClaimsEnter(budget, s, op, id);
        AdmittedRow(budget, s, op);
        WeightAsked(op.req, t.rows[id]);
      }
    }
  }

  /** Over every run, each reservation in the table weighs what its request asked for. */
  lemma {:induction false} RunBacked(budget: View, ops: seq<Op>)
    ensures Backed(Run(budget, NONE, ops).rows, Admissions(budget, NONE, ops))
    decreases |ops|
  {
    if ops != [] {
      RunBacked(budget, ops[..|ops| - 1]);
      StepBacked(budget, Run(budget, NONE, ops[..|ops| - 1]), ops[|ops| - 1], Admissions(budget, NONE, ops[..|ops| - 1]));
    }
  }

  /** What the requests of the reservations that are still counted ask for. */
  function StillAsked(rows: Rows, reqs: map<string, Request>): map<string, View> {
    map id | id in rows :: if Counted(rows[id]) && id in reqs && reqs[id].role.Some? then Asked(reqs[id]) else ZERO
  }

  ghost function AskedTotal(rows: Rows, reqs: map<string, Request>): View {
    SumOf(StillAsked(rows, reqs), (v: View) => v, ZERO, Add)
  }

  lemma BackedTotal(rows: Rows, reqs: map<string, Request>)
    requires Backed(rows, reqs)
    ensures AskedTotal(rows, reqs) == Sum(rows, COUNTED)
  {
    AddSwappable();
    SumSame(StillAsked(rows, reqs), (v: View) => v, rows, WeightFn(COUNTED), ZERO, Add);
  }

  /** Over every run with non-negative requests and budget, the requests of the admissions that
      are still counted add up to no more than the budget, in every dimension. */
  lemma RequestsStayWithin(budget: View, ops: seq<Op>)
    requires AtMost(ZERO, budget) && forall i :: 0 <= i < |ops| ==> NonNegative(ops[i])
    ensures Fits(budget, AskedTotal(Run(budget, NONE, ops).rows, Admissions(budget, NONE, ops)))
  {
    assert Sum(NONE.rows, COUNTED) == ZERO;
    RunStaysSafe(budget, NONE, ops);
    RunBacked(budget, ops);
    BackedTotal(Run(budget, NONE, ops).rows, Admissions(budget, NONE, ops));
  }

  // ----- The other operations -----

  /** An overdue active reservation expires if its process is known dead, and needs attention
      otherwise; any other is left alone. */
  lemma RefreshMeans(id: string, r: Row, now: Time, probe: Probe)
    requires probe(id, r) != ProbeError
    ensures var c := RefreshRow(id, r, now, probe);
      && (r.state != Active || now < r.lease ==> c == r)
      && (r.state == Active && r.lease <= now ==>
            && c.state == (if probe(id, r) == Dead then Expired else Attention)
            && c == r.(state := c.state, reason := c.reason)
            && (c.reason == "" <==> probe(id, r) == Dead)
            && (c.reason == "lease_expired_process_possibly_live" <==> probe(id, r) == Live)
            && (c.reason == "lease_expired_liveness_unknown" <==> probe(id, r) == Unknown))
  {}

  /** A renewal succeeds exactly for a reservation that is active after overdue leases were looked
      at, with the current generation; it raises the generation and restarts the lease. */
  lemma RenewMeans(rows: Rows, id: string, generation: int, ttl: int, now: Time, probe: Probe)
    requires !ProbeFails(rows, now, probe)
    ensures var current, after := Refresh(rows, now, probe), RenewStep(rows, id, generation, ttl, now, probe);
      var fault := RenewFault(rows, id, generation, now, probe);
      && (fault.None? <==> id in current && current[id].state == Active && current[id].generation == generation)
      && (fault == Some(NotFound) <==> id !in rows)
      && (fault == Some(AttentionRequired) <==> id in current && current[id].state == Attention && current[id].generation == generation)
      && (fault.None? ==>
            && after.Keys == current.Keys
            && after[id] == current[id].(generation := generation + 1, lease := now + (if ttl <= 0 then 300 else ttl))
            && (forall i :: i in current && i != id ==> after[i] == current[i]))
      && (fault.Some? ==> after == rows)
  {}

  /** A release succeeds for a known reservation, whatever its state, with its generation or with
      none, and for one already released with any. */
  lemma ReleaseMeans(rows: Rows, id: string, generation: int)
    ensures var fault, after := ReleaseFault(rows, id, generation), ReleaseStep(rows, id, generation);
      && (fault == Some(NotFound) <==> id !in rows)
      && (fault.None? <==> id in rows && (rows[id].state == Released || generation == 0 || generation == rows[id].generation))
      && (fault.None? ==> after == rows[id := rows[id].(state := Released)])
      && (fault.Some? ==> after == rows)
  {}

  /** Attention is resolved, and an expired reservation closed, exactly when the process is known
      dead, or known alive and released on purpose. */
  lemma ResolveMeans(rows: Rows, id: string, release: bool, probe: Probe)
    requires id in rows && (rows[id].state == Attention || rows[id].state == Expired)
    ensures var fault, after := ResolveFault(rows, id, release, probe), ResolveStep(rows, id, release, probe);
      && (fault.None? <==> probe(id, rows[id]) == Dead || (probe(id, rows[id]) == Live && release))
      && (fault == Some(ProbeFailed) <==> probe(id, rows[id]) == ProbeError)
      && (fault.None? ==> after == rows[id := rows[id].(state := Released, reason := "")])
      && (fault.Some? ==> after == rows)
  {}

  /** Enforcement is asked for exactly the metrics in which an active reservation is exceeded
      and that were not enforced before. */
  lemma EmitsMeans(s: Store, id: string, use: Use)
    requires id in s.rows
    ensures var r := s.rows[id];
      && (Emits(s, id, use, Processes) <==> r.state == Active && use.processes > r.processes && (id, Processes) !in s.enforced)
      && (Emits(s, id, use, Rss) <==> r.state == Active && use.rss > r.rss > 0 && (id, Rss) !in s.enforced)
      && (Emits(s, id, use, Cpu) <==> r.state == Active && use.cpu > r.cpu + 0.000000001 && r.cpu > 0.0 && (id, Cpu) !in s.enforced)
    ensures forall m :: (id, m) in ObserveStep(s, id, use).enforced <==> (id, m) in s.enforced || Emits(s, id, use, m)
    ensures ObserveStep(s, id, use).rows == s.rows
  {}
}
