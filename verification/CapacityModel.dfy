/** The capacity ledger: one accounting entry per attempt, in memory and in the file, and
    the steps that reserve, reconcile, release, observe and reopen. */
module CapacityModel {
  import opened Common
  import opened CapacityWindows

  const DEFAULT_DEMAND: real := 0.05
  const RISE_TOLERANCE: real := 0.001
  const SAME_ACTUAL: real := 0.000000001

  datatype State = Reserved | Reconciled | Released | Cancelled | Refused

  /** What remained afterwards: unknown, computed from the actual use, or observed. */
  datatype After = NoAfter | Derived(value: real) | Observed(value: real, source: string)

  datatype Identity = Identity(
    plan: string, graph: string, taskClass: string, contract: string, provider: string, model: string,
    depth: string, account: Account, kind: string)

  /** `hold` is the number of the soft reservation behind the entry. */
  datatype Entry = Entry(
    identity: Identity, install: string, before: real, reserved: real, hold: Option<nat>, reset: Option<Time>,
    expires: Option<Time>, actual: Option<real>, source: string, after: After, state: State)

  datatype Attempt = Attempt(project: string, run: string, attempt: string)

  datatype Request = Request(
    attempt: Attempt, plan: string, graph: string, taskClass: string, contract: string, provider: string,
    model: string, depth: string, account: Account, install: string, kind: string, demand: real,
    snapshot: Option<seq<Row>>)

  datatype Observation = Observation(
    fraction: real, source: string, freshness: string, account: Account, kind: string, install: string,
    at: Option<Time>, resetObserved: bool, resetEvidence: string)

  /** `issued` is the highest number the soft-reservation store has given out. */
  datatype Ledger = Ledger(mem: map<string, Entry>, disk: map<string, Entry>, issued: nat)

  const EMPTY_LEDGER := Ledger(map[], map[], 0)

  datatype Error = Invalid | NoWindow | Conflict | HoldDeclined | NotSaved

  /** The calls return an entry, an error, or both. */
  datatype Answer = Answer(entry: Option<Entry>, error: Option<Error>)

  function Failed(e: Error): Answer {
    Answer(None, Some(e))
  }

  function Key(a: Attempt): string {
    Trim(a.project) + ['|'] + Trim(a.run) + ['|'] + Trim(a.attempt)
  }

  /** Writing the file either replaces its contents or leaves them. */
  function Written(s: Ledger, saved: bool): Ledger {
    if saved then s.(disk := s.mem) else s
  }

  function SaveError(saved: bool): Option<Error> {
    if saved then None else Some(NotSaved)
  }

  // ----- Reserve -----

  predicate RequestInvalid(r: Request) {
    Blank(r.plan) || Blank(r.graph) || Blank(r.taskClass) || Blank(r.contract) || !r.account.Full?
    || Blank(r.install) || Blank(r.kind) || MapWindowKind(r.kind) == ""
  }

  predicate ProductComplete(id: Identity) {
    !Blank(id.plan) && !Blank(id.graph) && !Blank(id.taskClass) && !Blank(id.contract)
  }

  predicate IdentityMatches(e: Entry, r: Request) {
    var id := e.identity;
    && Trim(id.plan) == Trim(r.plan) && Trim(id.graph) == Trim(r.graph)
    && Trim(id.taskClass) == Trim(r.taskClass) && Trim(id.contract) == Trim(r.contract)
    && Trim(id.provider) == Trim(r.provider) && Trim(id.model) == Trim(r.model)
    && Trim(id.depth) == Trim(r.depth) && id.account == r.account
    && Trim(e.install) == Trim(r.install) && KindEqual(id.kind, r.kind)
  }

  function WantedBy(r: Request): Wanted {
    Wanted(r.provider, r.account, r.install, r.kind)
  }

  function Chosen(r: Request): (c: Option<Choice>)
    ensures c.Some? ==> Usable(c.value)
  {
    if r.snapshot.None? then None else Pick(WantedBy(r), r.snapshot.value)
  }

  function Demand(r: Request): real {
    if r.demand <= 0.0 then DEFAULT_DEMAND else r.demand
  }

  /** What the soft-reservation store makes of a well-formed request: only it knows the pressure. */
  datatype Verdict = Grant | NoHeadroom | Contended

  datatype Hold = Held(number: nat, fraction: real) | NotHeld(drawn: Option<nat>)

  predicate StoreRejects(r: Request) {
    Blank(r.attempt.project) || Blank(r.attempt.attempt) || Blank(r.provider) || Blank(r.model)
  }

  function StoreReserve(issued: nat, r: Request, verdict: Verdict): Hold {
    if StoreRejects(r) then NotHeld(None)
    else match verdict
      case Grant => Held(issued + 1, Clamp01(Demand(r)))
      case NoHeadroom => NotHeld(Some(issued + 1))
      case Contended => NotHeld(None)
  }

  function NumberOf(h: Hold): Option<nat> {
    if h.Held? then Some(h.number) else h.drawn
  }

  function IdentityOf(r: Request, account: Account, kind: string): Identity {
    Identity(Trim(r.plan), Trim(r.graph), Trim(r.taskClass), Trim(r.contract), r.provider, r.model, r.depth,
             account, kind)
  }

  function WithoutWindow(r: Request): Entry {
    Entry(IdentityOf(r, if r.snapshot.None? then Missing else r.account, ""), Trim(r.install), 0.0, 0.0, None, None, None,
          None, "", NoAfter, Refused)
  }

  function WithWindow(r: Request, c: Choice, h: Hold, expires: Time): Entry
    requires Usable(c)
  {
    Entry(IdentityOf(r, c.account, MapWindowKind(c.window.kind)), Trim(r.install), RemainingFraction(c.window).value,
          if h.Held? then h.fraction else 0.0, NumberOf(h), c.window.reset,
          if h.Held? then Some(expires) else None, None, "", NoAfter, if h.Held? then Reserved else Refused)
  }

  /** The hold a request without an entry leads to, if it comes that far. */
  function HoldFor(s: Ledger, r: Request, verdict: Verdict): Option<Hold> {
    if Chosen(r).None? then None else Some(StoreReserve(s.issued, r, verdict))
  }

  function NewEntry(s: Ledger, r: Request, verdict: Verdict, expires: Time): Entry {
    if Chosen(r).None? then WithoutWindow(r)
    else WithWindow(r, Chosen(r).value, StoreReserve(s.issued, r, verdict), expires)
  }

  function IssuedBy(s: Ledger, r: Request, verdict: Verdict): nat {
    var h := HoldFor(s, r, verdict);
    if h.Some? && NumberOf(h.value).Some? then NumberOf(h.value).value else s.issued
  }

  predicate Opens(s: Ledger, r: Request) {
    !RequestInvalid(r) && Key(r.attempt) !in s.mem
  }

  function ReserveStep(s: Ledger, r: Request, verdict: Verdict, expires: Time, saved: bool): Ledger {
    if !Opens(s, r) then s
    else
      Written(Ledger(s.mem[Key(r.attempt) := NewEntry(s, r, verdict, expires)], s.disk, IssuedBy(s, r, verdict)), saved)
  }

  function ReserveAnswer(s: Ledger, r: Request, verdict: Verdict, expires: Time, saved: bool): Answer {
    if RequestInvalid(r) then Failed(Invalid)
    else if Key(r.attempt) in s.mem then
      var e := s.mem[Key(r.attempt)];
      if !e.state.Reserved? || !ProductComplete(e.identity) then Failed(Invalid)
      else if !IdentityMatches(e, r) then Failed(Conflict)
      else Answer(Some(e), None)
    else
      var e := NewEntry(s, r, verdict, expires);
      Answer(Some(e), if Chosen(r).None? then Some(NoWindow)
                      else if e.state.Refused? then Some(HoldDeclined)
                      else SaveError(saved))
  }

  // ----- Reconcile -----

  predicate SameActual(x: real, y: real) {
    -SAME_ACTUAL < x - y < SAME_ACTUAL
  }

  function DerivedAfter(before: real, actual: real): real {
    if before - actual < 0.0 then 0.0 else before - actual
  }

  function ReconcileEntry(e: Entry, fraction: real, source: string): Entry {
    if e.state.Reconciled? then e
    else
      var a := Clamp01(fraction);
      e.(actual := Some(a), source := Trim(source), state := Reconciled,
         after := if e.after.Observed? then e.after else Derived(DerivedAfter(e.before, a)))
  }

  /** `counted` tells that the store drew a number for the attribution. */
  function ReconcileStep(s: Ledger, a: Attempt, fraction: real, source: string, counted: bool, saved: bool): Ledger {
    if Key(a) !in s.mem || s.mem[Key(a)].state.Reconciled? then s
    else
      var e := s.mem[Key(a)];
      Written(Ledger(s.mem[Key(a) := ReconcileEntry(e, fraction, source)], s.disk,
                     if e.hold.Some? && counted then s.issued + 1 else s.issued), saved)
  }

  function ReconcileAnswer(s: Ledger, a: Attempt, fraction: real, source: string, saved: bool): Answer {
    if Key(a) !in s.mem then Failed(Invalid)
    else
      var e := s.mem[Key(a)];
      if !e.state.Reconciled? then Answer(Some(ReconcileEntry(e, fraction, source)), SaveError(saved))
      else if e.actual.None? then Failed(Invalid)
      else if SameActual(e.actual.value, Clamp01(fraction)) && Lower(Trim(e.source)) == Lower(Trim(source))
      then Answer(Some(e), None)
      else Failed(Conflict)
  }

  // ----- Release -----

  predicate Settled(state: State) {
    state.Released? || state.Cancelled? || state.Reconciled?
  }

  function ReleaseEntry(e: Entry): Entry {
    if Settled(e.state) then e else e.(state := Released, actual := None, source := "")
  }

  function ReleaseStep(s: Ledger, a: Attempt, saved: bool): Ledger {
    if Key(a) !in s.mem || Settled(s.mem[Key(a)].state) then s
    else Written(s.(mem := s.mem[Key(a) := ReleaseEntry(s.mem[Key(a)])]), saved)
  }

  function ReleaseAnswer(s: Ledger, a: Attempt, saved: bool): Answer {
    if Key(a) !in s.mem then Failed(Invalid)
    else
      var e := s.mem[Key(a)];
      Answer(Some(ReleaseEntry(e)), if Settled(e.state) then None else SaveError(saved))
  }

  // ----- Observe -----

  predicate Bound(e: Entry, o: Observation) {
    && !o.account.Missing? && !Blank(o.kind) && !Blank(o.install)
    && o.account == e.identity.account && KindEqual(Trim(o.kind), e.identity.kind)
    && (Blank(e.install) || e.install == Trim(o.install))
  }

  predicate HasResetEvidence(o: Observation) {
    o.resetObserved && !Blank(o.resetEvidence)
  }

  predicate Credible(e: Entry, o: Observation) {
    && !Blank(o.source) && !Blank(o.freshness) && o.at.Some?
    && (Clamp01(o.fraction) > e.before + RISE_TOLERANCE ==> HasResetEvidence(o))
  }

  /** The installation is filled in even when the observation is then rejected. */
  function ObserveEntry(e: Entry, o: Observation): Entry {
    if !Bound(e, o) then e
    else if !Credible(e, o) then e.(install := Trim(o.install))
    else e.(install := Trim(o.install), after := Observed(Clamp01(o.fraction), Trim(o.source)))
  }

  predicate Accepts(s: Ledger, a: Attempt, o: Observation) {
    Key(a) in s.mem && Bound(s.mem[Key(a)], o) && Credible(s.mem[Key(a)], o)
  }

  function ObserveStep(s: Ledger, a: Attempt, o: Observation, saved: bool): Ledger {
    if Key(a) !in s.mem then s
    else Written(s.(mem := s.mem[Key(a) := ObserveEntry(s.mem[Key(a)], o)]), saved && Accepts(s, a, o))
  }

  function ObserveAnswer(s: Ledger, a: Attempt, o: Observation, saved: bool): Answer {
    if !Accepts(s, a, o) then Failed(Invalid)
    else Answer(Some(ObserveEntry(s.mem[Key(a)], o)), SaveError(saved))
  }

  // ----- Reopen -----

  /** An entry still reserved in the file has to be one the ledger could have reserved. */
  predicate EntryLoads(e: Entry) {
    e.state.Reserved? ==>
      && !Blank(e.identity.provider) && !Blank(e.identity.model) && !e.identity.account.Missing?
      && !Blank(e.identity.kind) && e.hold.Some? && e.reserved > 0.0
      && (ProductComplete(e.identity) ==> e.expires.Some? || e.reset.Some?)
  }

  ghost predicate HoldsDistinct(m: map<string, Entry>) {
    forall k, l :: k in m && l in m && m[k].hold.Some? && m[k].hold == m[l].hold ==> k == l
  }

  ghost predicate Loads(m: map<string, Entry>) {
    (forall k :: k in m ==> EntryLoads(m[k])) && HoldsDistinct(m)
  }

  predicate Lapsed(e: Entry, now: Time) {
    var until := if e.expires.Some? then e.expires else e.reset;
    !ProductComplete(e.identity) || until.None? || until.value <= now
  }

  function Reload(e: Entry, now: Time): Entry {
    if e.state.Reserved? && Lapsed(e, now) then e.(state := Released) else e
  }

  function Reloaded(m: map<string, Entry>, now: Time): map<string, Entry> {
    map k | k in m :: Reload(m[k], now)
  }

  function Number(e: Entry): nat {
    if e.hold.Some? then e.hold.value else 0
  }

  /** `n` is the highest hold number in `m`. */
  ghost predicate IsHighest(m: map<string, Entry>, n: nat) {
    (forall k :: k in m ==> Number(m[k]) <= n) && (n > 0 ==> exists k :: k in m && Number(m[k]) == n)
  }

  ghost function Highest(m: map<string, Entry>): (n: nat)
    ensures IsHighest(m, n)
  {
    if m == map[] then 0
    else
      var k :| k in m;
      var rest := m - {k};
      var n := Highest(rest);
      assert forall l :: l in m ==> l == k || (l in rest && rest[l] == m[l]);
      assert n > 0 ==> exists l :: l in rest && Number(rest[l]) == n;
      if Number(m[k]) > n then Number(m[k]) else n
  }

  /** A file that cannot be read, or a release on load that cannot be written, opens nothing. */
  ghost predicate Reopens(s: Ledger, now: Time, saved: bool) {
    Loads(s.disk) && (saved || Reloaded(s.disk, now) == s.disk)
  }

  ghost function ReopenStep(s: Ledger, now: Time, saved: bool): Ledger {
    if !Reopens(s, now, saved) then s
    else Ledger(Reloaded(s.disk, now), Reloaded(s.disk, now), Highest(s.disk))
  }

  // ----- Runs -----

  datatype Op =
    | Reserve(request: Request, verdict: Verdict, expires: Time, saved: bool)
    | Reconcile(attempt: Attempt, fraction: real, source: string, counted: bool, saved: bool)
    | Release(attempt: Attempt, saved: bool)
    | Observe(attempt: Attempt, observation: Observation, saved: bool)
    | Reopen(now: Time, saved: bool)

  ghost function Step(s: Ledger, op: Op): Ledger {
    match op
    case Reserve(r, verdict, expires, saved) => ReserveStep(s, r, verdict, expires, saved)
    case Reconcile(a, fraction, source, counted, saved) => ReconcileStep(s, a, fraction, source, counted, saved)
    case Release(a, saved) => ReleaseStep(s, a, saved)
    case Observe(a, o, saved) => ObserveStep(s, a, o, saved)
    case Reopen(now, saved) => ReopenStep(s, now, saved)
  }

  ghost function Run(s: Ledger, ops: seq<Op>): Ledger
    decreases |ops|
  {
    if ops == [] then s else Step(Run(s, ops[..|ops| - 1]), ops[|ops| - 1])
  }
}
