/** Machine admission: reservations of workers, processes, memory and CPU, and what
    one transaction does to them. A transaction that ends in an error is rolled back. */
module AdmissionModel {
  import opened Common
  import opened Sums

  type Time = int

  datatype Role = Worker | Verifier | LocalTest

  datatype State = Active | Released | Expired | Attention

  /** An amount of every resource: a usage, or a budget. */
  datatype View = View(workers: int, verifiers: int, localTests: int, processes: int, rss: int, cpu: real)

  const ZERO := View(0, 0, 0, 0, 0, 0.0)

  /** Slack of the CPU comparison. */
  const TOLERANCE: real := 0.000000001

  const DEFAULT_LEASE: int := 300

  function Add(a: View, b: View): View {
    View(a.workers + b.workers, a.verifiers + b.verifiers, a.localTests + b.localTests,
         a.processes + b.processes, a.rss + b.rss, a.cpu + b.cpu)
  }

  predicate AtMost(a: View, b: View) {
    a.workers <= b.workers && a.verifiers <= b.verifiers && a.localTests <= b.localTests
    && a.processes <= b.processes && a.rss <= b.rss && a.cpu <= b.cpu
  }

  /** Within budget in every dimension, CPU up to the tolerance. */
  predicate Fits(budget: View, v: View) {
    AtMost(v, budget.(cpu := budget.cpu + TOLERANCE))
  }

  datatype Row = Row(
    role: Role, state: State, processes: int, rss: int, cpu: real, lease: Time, key: string,
    generation: int, reason: string)

  function Weight(r: Row): View {
    View(if r.role == Worker then 1 else 0, if r.role == Verifier then 1 else 0,
         if r.role == LocalTest then 1 else 0, r.processes, r.rss, r.cpu)
  }

  type Rows = map<string, Row>

  function WeightIn(r: Row, states: set<State>): View {
    if r.state in states then Weight(r) else ZERO
  }

  ghost function WeightFn(states: set<State>): Row -> View {
    (r: Row) => WeightIn(r, states)
  }

  ghost function Sum(rows: Rows, states: set<State>): View {
    SumOf(rows, WeightFn(states), ZERO, Add)
  }

  const COUNTED: set<State> := {Active, Attention}

  predicate Counted(r: Row) {
    r.state in COUNTED
  }

  /** `role` is None for a role that does not exist. */
  datatype Request = Request(
    project: string, role: Option<Role>, processes: int, rss: int, cpu: real, key: string, ttl: int)

  datatype Liveness = Live | Dead | Unknown | ProbeError

  type Probe = (string, Row) -> Liveness

  datatype Reason =
    | WorkerBudget | VerifierBlocked | VerifierBudget | LocalTestBudget
    | ProcessBudget | RssBudget | CpuBudget

  datatype Decision =
    | Invalid | Faulty | Replayed(id: string) | NeedsAttention(id: string)
    | Denied(reasons: seq<Reason>) | Admitted(id: string)

  // ----- Overdue leases -----

  predicate Overdue(r: Row, now: Time) {
    r.state == Active && r.lease <= now
  }

  function RefreshRow(id: string, r: Row, now: Time, probe: Probe): Row {
    if !Overdue(r, now) then r
    else
      match probe(id, r)
      case Dead => r.(state := Expired, reason := "")
      case Live => r.(state := Attention, reason := "lease_expired_process_possibly_live")
      case _ => r.(state := Attention, reason := "lease_expired_liveness_unknown")
  }

  predicate ProbeFails(rows: Rows, now: Time, probe: Probe) {
    exists id :: id in rows && Overdue(rows[id], now) && probe(id, rows[id]) == ProbeError
  }

  function Refresh(rows: Rows, now: Time, probe: Probe): Rows {
    map id | id in rows :: RefreshRow(id, rows[id], now, probe)
  }

  // ----- Claim -----

  predicate RequestValid(req: Request) {
    !Blank(req.project) && req.role.Some?
  }

  function Needed(req: Request): int {
    if req.processes <= 0 then 1 else req.processes
  }

  function SlotReasons(budget: View, used: View, role: Role): seq<Reason> {
    match role
    case Worker => if used.workers + 1 > budget.workers then [WorkerBudget] else []
    case Verifier =>
      if used.workers > 0 && budget.verifiers == 0 then [VerifierBlocked]
      else if used.verifiers + 1 > budget.verifiers then [VerifierBudget]
      else []
    case LocalTest => if used.localTests + 1 > budget.localTests then [LocalTestBudget] else []
  }

  function AddIf(reasons: seq<Reason>, cond: bool, r: Reason): seq<Reason> {
    if cond then reasons + [r] else reasons
  }

  function Reasons(budget: View, used: View, req: Request): seq<Reason>
    requires req.role.Some?
  {
    var slot := SlotReasons(budget, used, req.role.value);
    var procs := AddIf(slot, used.processes + Needed(req) > budget.processes, ProcessBudget);
    var memory := AddIf(procs, req.rss > 0 && used.rss + req.rss > budget.rss, RssBudget);
    AddIf(memory, req.cpu > 0.0 && used.cpu + req.cpu > budget.cpu + TOLERANCE, CpuBudget)
  }

  predicate KeyTaken(rows: Rows, key: string) {
    exists id :: id in rows && rows[id].key == key
  }

  /** Rows are looked up by the key as sent, but stored under the trimmed key. */
  function StoredKey(req: Request, id: string): string {
    if Blank(req.key) then id else Trim(req.key)
  }

  function NewRow(req: Request, id: string, now: Time): Row
    requires req.role.Some?
  {
    Row(req.role.value, Active, Needed(req), req.rss, req.cpu,
        now + (if req.ttl <= 0 then DEFAULT_LEASE else req.ttl), StoredKey(req, id), 1, "")
  }

  predicate KeysUnique(rows: Rows) {
    forall i, j | i in rows && j in rows :: rows[i].key == rows[j].key ==> i == j
  }

  predicate Recognised(rows: Rows, req: Request, state: State) {
    req.key != "" && exists id :: id in rows && rows[id].key == req.key && rows[id].state == state
  }

  /** What a claim leaves of the refreshed rows; None when it is rolled back. */
  ghost function ClaimOn(budget: View, rows: Rows, req: Request, id: string, now: Time): Option<Rows>
    requires req.role.Some?
  {
    if Recognised(rows, req, Active) then Some(rows)
    else if Recognised(rows, req, Attention) then None
    else if Reasons(budget, Sum(rows, COUNTED), req) != [] then Some(rows)
    else if id in rows || KeyTaken(rows, StoredKey(req, id)) then None
    else Some(rows[id := NewRow(req, id, now)])
  }

  predicate Answering(rows: Rows, req: Request, id: string, state: State) {
    id in rows && rows[id].key == req.key && rows[id].state == state
  }

  /** What the caller of a claim is told, on refreshed rows. */
  ghost predicate AnswersOn(budget: View, rows: Rows, req: Request, id: string, out: Decision)
    requires req.role.Some?
  {
    if Recognised(rows, req, Active) then out.Replayed? && Answering(rows, req, out.id, Active)
    else if Recognised(rows, req, Attention) then out.NeedsAttention? && Answering(rows, req, out.id, Attention)
    else if Reasons(budget, Sum(rows, COUNTED), req) != [] then out == Denied(Reasons(budget, Sum(rows, COUNTED), req))
    else if id in rows || KeyTaken(rows, StoredKey(req, id)) then out == Faulty
    else out == Admitted(id)
  }

  ghost predicate ClaimAnswers(budget: View, rows: Rows, req: Request, id: string, now: Time, probe: Probe,
                               out: Decision)
  {
    if !RequestValid(req) then out == Invalid
    else if ProbeFails(rows, now, probe) then out == Faulty
    else AnswersOn(budget, Refresh(rows, now, probe), req, id, out)
  }

  /** `id` is the hash the new reservation would get. */
  ghost function ClaimStep(budget: View, rows: Rows, req: Request, id: string, now: Time, probe: Probe): Rows {
    if !RequestValid(req) || ProbeFails(rows, now, probe) then rows
    else
      match ClaimOn(budget, Refresh(rows, now, probe), req, id, now)
      case None => rows
      case Some(after) => after
  }

  // ----- Renew, Release, ResolveAttention, Observe -----

  datatype Error = NotFound | GenerationMismatch | AttentionRequired | ProbeFailed

  /** The checks of a renewal on refreshed rows. */
  function RenewFaultOn(rows: Rows, id: string, generation: int): Option<Error> {
    if id !in rows then Some(NotFound)
    else if rows[id].generation != generation then Some(GenerationMismatch)
    else
      match rows[id].state
      case Active => None
      case Attention => Some(AttentionRequired)
      case _ => Some(GenerationMismatch)
  }

  function RenewFault(rows: Rows, id: string, generation: int, now: Time, probe: Probe): Option<Error> {
    if ProbeFails(rows, now, probe) then Some(ProbeFailed)
    else RenewFaultOn(Refresh(rows, now, probe), id, generation)
  }

  function Renewed(r: Row, ttl: int, now: Time): Row {
    r.(generation := r.generation + 1, lease := now + (if ttl <= 0 then DEFAULT_LEASE else ttl))
  }

  function RenewStep(rows: Rows, id: string, generation: int, ttl: int, now: Time, probe: Probe): Rows {
    if RenewFault(rows, id, generation, now, probe).Some? then rows
    else
      var current := Refresh(rows, now, probe);
      current[id := Renewed(current[id], ttl, now)]
  }

  /** Generation 0 releases whatever the generation is. */
  function ReleaseFault(rows: Rows, id: string, generation: int): Option<Error> {
    if id !in rows then Some(NotFound)
    else if rows[id].state != Released && generation != 0 && rows[id].generation != generation then
      Some(GenerationMismatch)
    else None
  }

  function ReleaseStep(rows: Rows, id: string, generation: int): Rows {
    if ReleaseFault(rows, id, generation).Some? || rows[id].state == Released then rows
    else rows[id := rows[id].(state := Released)]
  }

  predicate Resolvable(r: Row) {
    r.state == Attention || r.state == Expired
  }

  function ResolveFault(rows: Rows, id: string, release: bool, probe: Probe): Option<Error> {
    if id !in rows then Some(NotFound)
    else if !Resolvable(rows[id]) then None
    else
      match probe(id, rows[id])
      case ProbeError => Some(ProbeFailed)
      case Unknown => Some(AttentionRequired)
      case Live => if release then None else Some(AttentionRequired)
      case Dead => None
  }

  function ResolveStep(rows: Rows, id: string, release: bool, probe: Probe): Rows {
    if ResolveFault(rows, id, release, probe).Some? || !Resolvable(rows[id]) then rows
    else rows[id := rows[id].(state := Released, reason := "")]
  }

  datatype Metric = Processes | Rss | Cpu

  datatype Use = Use(processes: int, rss: int, cpu: real)

  /** The metrics in which an active reservation is exceeded. */
  function Exceeded(r: Row, use: Use): set<Metric> {
    (if use.processes > r.processes then {Processes} else {})
    + (if use.rss > 0 && r.rss > 0 && use.rss > r.rss then {Rss} else {})
    + (if use.cpu > 0.0 && r.cpu > 0.0 && use.cpu > r.cpu + TOLERANCE then {Cpu} else {})
  }

  /** Enforcement requests that were emitted, by reservation and metric. */
  type Enforced = set<(string, Metric)>

  datatype Store = Store(rows: Rows, enforced: Enforced)

  function ExceededBy(s: Store, id: string, use: Use): set<Metric> {
    if id in s.rows && s.rows[id].state == Active then Exceeded(s.rows[id], use) else {}
  }

  /** A request is emitted only for a metric that was not enforced before. */
  predicate Emits(s: Store, id: string, use: Use, m: Metric) {
    m in ExceededBy(s, id, use) && (id, m) !in s.enforced
  }

  function ObserveStep(s: Store, id: string, use: Use): Store {
    s.(enforced := s.enforced + set m | m in ExceededBy(s, id, use) :: (id, m))
  }

  // ----- Runs -----

  datatype Op =
    | Claim(req: Request, id: string, now: Time, probe: Probe)
    | Renew(id: string, generation: int, ttl: int, now: Time, probe: Probe)
    | Release(id: string, generation: int)
    | Resolve(id: string, release: bool, probe: Probe)
    | Observe(id: string, use: Use)

  ghost function Step(budget: View, s: Store, op: Op): Store {
    match op
    case Claim(req, id, now, probe) => s.(rows := ClaimStep(budget, s.rows, req, id, now, probe))
    case Renew(id, g, ttl, now, probe) => s.(rows := RenewStep(s.rows, id, g, ttl, now, probe))
    case Release(id, g) => s.(rows := ReleaseStep(s.rows, id, g))
    case Resolve(id, release, probe) => s.(rows := ResolveStep(s.rows, id, release, probe))
    case Observe(id, use) => ObserveStep(s, id, use)
  }

  ghost function Run(budget: View, s: Store, ops: seq<Op>): Store
    decreases |ops|
  {
    if ops == [] then s else Step(budget, Run(budget, s, ops[..|ops| - 1]), ops[|ops| - 1])
  }
}
